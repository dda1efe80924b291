# Folio Lattice in Dafny

Folio Lattice keeps versioned artifacts, the links between them and the rights to them in SQLite, with the bytes in
a content-addressed directory. This project models the state machines and worklist algorithms behind that service
and proves what they promise over every input and every run.

`dafny verify dfyconfig.toml` checks everything.

| file | part of the repository |
|---|---|
| `Common.dfy` | small datatypes and sequence facts; forward steps that may fail; unused names |
| `Tables.dfy` | the service's tables as values; the two forms of the access check |
| `Lattice.dfy` | create, write, share, revoke, link and read, as a class over the tables and the blob store |
| `VersionHistory.dfy` | what every run keeps about versions, blobs, chunks and links |
| `GrantHistory.dfy` | what every run keeps about rights: owners, grants, provenance, revocation |
| `Chunks.dfy` | text chunks and grep |
| `BreadthFirst.dfy`, `GraphSearch.dfy`, `Traversal.dfy` | the three bounded graph searches |
| `AuditExport.dfy` | the paged audit export |
| `ExternalFence.dfy`, `ConcurrencyLimiter.dfy` | external calls racing with revocation; the slot limiter |
| `CredentialScan.dfy`, `ExceptionSearch.dfy` | the two bounded worklist searches of the broker |
| `RateLimiters.dfy`, `DimensionLimiter.dfy` | the fixed-window rate limiters |
| `Base64Url.dfy`, `PrincipalRelay.dfy` | canonical base64url; opaque and signed capabilities |
| `Sessions.dfy` | memberships, browser sessions and sign-in transactions |
| `Deployment.dfy` | upgrade and rollback of database, blobs and version file under failing steps |
| `Backup.dfy` | backup and restore |
| `AgentRecipe.dfy`, `AssetPages.dfy` | a client that is cut off and tries again, against `Lattice.dfy`; the page it writes |

How it is modelled:

- Objects whose methods update their fields are classes with those fields (`FolioLattice`, `BoundedRateLimiter`,
  `DimensionRateLimiter`, `BoundedConcurrencyLimiter`, `Deployment`, `RestoreTarget`, `SessionStore`,
  `MembershipStore`, both relays, `Client`). Loops of the source are loops here. Each method is tied to a
  specification function of the old state, and the properties over runs are lemmas about those functions.
- `BEGIN IMMEDIATE` is one global write lock, so writing operations of the service follow one another; the process
  may die between writing a blob and committing. Calls to external connections interleave step by step.
- A SQL query stands for the rows it selects, in the order it asks for. Artifact, version and edge ids are numbers.
- SHA-256 is injective. Encryption and authentication codes open only with the key that sealed. JSON, UTF-8,
  percent-decoding, the readiness check and page rendering are functions given as parameters; where a property
  needs a promise of such a function (a round trip, say) it is a named predicate (`Faithful`, `ContextsAlike`).
- The clock, random texts and the failure of a file-system step or of a call are arguments.

Six statements one might expect are false of the code, and the exact condition is proved instead:

- A revoked signed capability can resolve again. Its entry in the denylist expires after 60 seconds, at the very
  second in which a token issued for 60 seconds still resolves. This can happen if and only if the time to live is
  60, the largest the constructor accepts (`OutlivesRevocationIffSixty`).
- Not everything that `create_backup` writes can be restored. The restore goes through if and only if the database
  refers to at least one blob (the blob directory is copied, and without a blob there is none), database and
  manifest are each within 16 MiB, and the state is ready (`RestoreGivesBack`; `EmptyStateIsNotRestorable` and
  `LargeStateIsNotRestorable` are states that are backed up and cannot be restored).
- Not every undisturbed run of the recipe completes its bundle. It does if and only if, before the first attempt,
  each of the three parts is there or is one that the service takes (`Accepts`, in `AttemptsConverge`); otherwise no
  attempt ever succeeds (`UnwelcomeNeverCompletes`). For the page the recipe writes, the page for any one pair of
  assets decides for all of them (`NamingRecipeCompletes`). A blank name of any part passes the recipe's own checks
  and is refused (`BlankNameNeverCompletes`).
- The search through chained exceptions can miss one of the wanted type. With n chained exceptions of other types
  every search is right if and only if n is below 256 (`RightIffFewer`; `LongChainIsMissed` is the input).
- A session that `resolve` has refused can be let in again when requests overlap: one that read the session in time
  may write its old clock reading after another was refused for idleness (`RefusedComesBack`). This can happen if and
  only if the session is over for idleness alone and such a request is under way (`ComesBackIffRevivable`). Where
  nothing comes between a request's read and its update it cannot (`RefusedForEver`).
- An upgrade or rollback that restores the earlier state can leave the version file naming the target. The temporary
  version file is unlinked after the rename, inside the guarded block; the file is wrong if and only if every step
  before that unlink succeeds and the unlink fails (`TransactionalUpgrade`, `RollbackDeployment`,
  `MisnamedIffUnlinkFailed`; `MisnamedUpgrade` is the run).

## Model

| member | source | states |
|---|---|---|
| Tables.AuthorizeIsAccessClause | src/folio_lattice/service.py:687-737 | the check made on one artifact and the condition put into queries let through exactly the same artifacts, for every actor and action |
| Lattice.FolioLattice.StoreBlob | src/folio_lattice/service.py:746-754 | a blob already there is left alone, otherwise the bytes are stored under their digest |
| Lattice.FolioLattice.InsertVersion | src/folio_lattice/service.py:1010-1094 | a version is added only on top of the current one; every refusal and every crash point, with exactly what is left behind |
| Lattice.FolioLattice.CreateArtifact | src/folio_lattice/service.py:804-866 | the new state is that of `CreateEffect`: row, three owner grants and first version together, or no table changes |
| Lattice.FolioLattice.WriteVersion | src/folio_lattice/service.py:971-1008 | validation, then the write right, then the insert; the new state for every outcome |
| Lattice.FolioLattice.ShareArtifact | src/folio_lattice/service.py:1829-1918 | returns the active grant for the right, an existing one if there is one; refusals in the order of the source |
| Lattice.FolioLattice.RevokeShare | src/folio_lattice/service.py:1920-1971 | deactivates the named grant of the artifact, never one of the owner's |
| Lattice.FolioLattice.Link | src/folio_lattice/service.py:1682-1752 | an edge with exactly these ends, type and metadata is there afterwards, or nothing changes |
| Lattice.FolioLattice.ReadArtifact | src/folio_lattice/service.py:1128-1168 | hidden and missing artifacts, versions and blobs; otherwise the stored bytes of the version named, or of the current one when none is (what that is, see `ReadsLastWrite`) |
| Lattice.LinkAccess | src/folio_lattice/service.py:1698-1707 | both ends must exist and be writable: it finds nothing wrong exactly when every id is authorised for writing |
| Lattice.InsertedMembers | src/folio_lattice/service.py:1725-1741 | inserting an edge adds that edge and no other |
| VersionHistory.OneChainPerArtifact | src/folio_lattice/service.py:1027-1094 | after any run, refusals and crashes included, all versions of an artifact form one chain without a fork that ends at its current version |
| VersionHistory.StaleParentChangesNothing | src/folio_lattice/service.py:1033-1035 | a write whose parent is not current changes neither table nor blob |
| VersionHistory.ParentUsedOnce | src/folio_lattice/service.py:1027-1094 | of two writes naming the same parent, however far apart and whatever happens between, only one can succeed |
| VersionHistory.ReadsBackWhatWasWritten | src/folio_lattice/service.py:1010-1168 | at any later time a reader with the read right gets exactly the bytes that were written, and anyone else the same refusal as for a missing artifact |
| VersionHistory.ReadsLastWrite | src/folio_lattice/service.py:1128-1168 | who names no version reads exactly the bytes written last, whatever else happens until the artifact gets another version |
| VersionHistory.ReadableIffOwnVersion | src/folio_lattice/service.py:1128-1142 | a named version is read exactly when the reader may read the artifact and it is a version of that artifact |
| VersionHistory.RowShowsLastWrite | src/folio_lattice/service.py:1087-1094 | until then the row of the artifact shows the version and type written last, and the name and owner of its creation |
| VersionHistory.VersionSaysWhatWasUploaded | src/folio_lattice/service.py:1037-1054 | at any later time the row of a version says what was uploaded, by whom, why, and on top of which version |
| VersionHistory.CreateSucceedsIff | src/folio_lattice/service.py:804-866 | with unused ids a create goes through exactly when names and upload keep their limits |
| VersionHistory.WriteSucceedsIff | src/folio_lattice/service.py:971-1008 | with an unused id a write goes through exactly when the upload keeps its limits, its author owns the artifact or holds an active right to write, and the parent is current |
| VersionHistory.LinkSucceedsIff | src/folio_lattice/service.py:1682-1752 | a link between two writable artifacts goes through exactly when they differ, its texts keep the limits and no such link with other metadata exists; it is there afterwards |
| VersionHistory.TenantsAreApart | src/folio_lattice/service.py:804-1971 | nothing one tenant does changes an artifact, version, link or right of another |
| VersionHistory.OtherTenantSeesNothing | src/folio_lattice/service.py:687-737 | an artifact of another tenant is not found, by any check, query or read |
| VersionHistory.TextIsTextual | src/folio_lattice/service.py:791-794 | which media types are split into chunks |
| VersionHistory.CrashLeavesOnlyUnreferencedBlobs | src/folio_lattice/service.py:746-754 | dying before the commit leaves the tables as they were and at most a blob that no version names |
| VersionHistory.EveryArtifactVersioned | src/folio_lattice/service.py:804-866 | after any run every artifact has a current version, so both forms of the graph search see the same graph |
| VersionHistory.HitsLieInUploads | src/folio_lattice/service.py:1055-1086 | after any run a grep hit is an occurrence in the decoded bytes of the current version |
| VersionHistory.GrepFindsUploads | src/folio_lattice/service.py:1055-1086 | after any run every occurrence in the current text of a readable artifact that crosses no cut between chunks lies in a row that grep looks at |
| VersionHistory.RunKeepsInv | src/folio_lattice/service.py:804-1094 | every operation keeps chains, owners, stored bytes and chunks right |
| VersionHistory.LinksStaySound | src/folio_lattice/service.py:1682-1752 | over any run every edge joins two different artifacts of one tenant and no link or edge id occurs twice |
| VersionHistory.EdgesStayInOrder | src/folio_lattice/service.py:1725-1741 | over any run the edges stay in the order of creation time, then id, in which every search takes them |
| VersionHistory.LinksNeverChange | src/folio_lattice/service.py:1708-1752 | a link, once made, stays as it was made through any run |
| VersionHistory.UploadsWithinLimits | src/folio_lattice/service.py:774-789 | after any run every committed version kept each upload limit and its row tells its true length |
| GrantHistory.RunKeepsGrants | src/folio_lattice/service.py:804-1971 | every operation keeps grants separate, sound and traceable |
| GrantHistory.AtMostOneActive | src/folio_lattice/service.py:1867-1917 | over any run at most one active grant gives an actor a right on an artifact |
| GrantHistory.OwnerLosesNothing | src/folio_lattice/service.py:1945-1951 | the owner is authorised for every action for ever, whatever anyone shares or revokes |
| GrantHistory.EveryRightComesFromTheOwner | src/folio_lattice/service.py:1829-1918 | every grant that ever existed traces back through share rights granted before it to one the owner made |
| GrantHistory.EveryRightWasLive | src/folio_lattice/service.py:1829-1918 | for every grant that ever existed, the operation of the run that made it, by someone whose own right to share was active at that moment, and so on back to the owner |
| GrantHistory.ProvenanceOf | src/folio_lattice/service.py:1829-1918 | the chain itself, by descent through the grants table |
| GrantHistory.RevokedUntilSharedAnew | src/folio_lattice/service.py:1920-1971 | after its active grant is revoked an actor other than the owner lacks the right through any operations that do not share it anew |
| GrantHistory.ShareGivesTheRight | src/folio_lattice/service.py:1829-1918 | a share that succeeds authorises the subject |
| GrantHistory.ShareSucceedsIff | src/folio_lattice/service.py:1829-1918 | with an unused id a share goes through exactly when its texts keep the limits, its reason is not the reserved one, its actor may share and its subject is an active member |
| GrantHistory.RevokeSucceedsIff | src/folio_lattice/service.py:1920-1971 | a revocation goes through exactly when its actor may share and the row is one of the artifact, not the owner's |
| GrantHistory.OwnersReasonIsReserved | src/folio_lattice/service.py:1841-1845 | the reserved reason is recognised in any case and between any blanks |
| GrantHistory.CreatorHoldsEveryRight | src/folio_lattice/service.py:842-856 | a new artifact has an active row for each of the three rights of its owner |
| GrantHistory.EveryChangeIsAuthorised | src/folio_lattice/service.py:971-1971 | no write, share, revocation or link changes a table unless its actor held the right it takes; shares go to active members only |
| GrantHistory.RightStays | src/folio_lattice/service.py:1829-1971 | a right once given survives every operation but the revocation of its own row |
| GrantHistory.RightIsGivenByShare | src/folio_lattice/service.py:1829-1918 | whoever gains a right gains it through a share by someone who may share, and only as an active member |
| GrantHistory.CreatorMayDoEverything | src/folio_lattice/service.py:804-866 | whoever creates an artifact is authorised for every action on it for ever |
| Chunks.Split | src/folio_lattice/service.py:796-802 | the generator yields exactly the chunks of the text |
| Chunks.ChunksPartition | src/folio_lattice/service.py:796-802 | chunks are numbered in order, adjacent, non-empty, at most 1200 characters, and concatenate to the text |
| Chunks.ChunksAreFull | src/folio_lattice/service.py:796-802 | chunk i starts at character 1200 times i and ends 1200 later, or with the text |
| Chunks.Find | src/folio_lattice/service.py:1670-1671 | the first place the pattern matches, and none exactly when it does not occur |
| Chunks.Sorted | src/folio_lattice/service.py:1665-1666 | the ids of a set, each once, ascending |
| Chunks.Scan | src/folio_lattice/service.py:1668-1679 | the loop over the rows, cut off at the limit |
| Chunks.Grep | src/folio_lattice/service.py:1645-1680 | empty and oversized patterns, the limit clamped to 1..500, and the first hits in row order |
| Chunks.GrepRowsAre | src/folio_lattice/service.py:1654-1667 | a row is queried exactly when it is a chunk of the current version of a readable artifact |
| Chunks.GrepIsComplete | src/folio_lattice/service.py:1668-1679 | below the limit every readable current chunk that contains the pattern is reported once, at its first match |
| Chunks.GrepReportsTheFirst | src/folio_lattice/service.py:1654-1679 | hits come by artifact and ordinal, and what the limit cuts off comes after all that is reported |
| Chunks.HitOccursInText | src/folio_lattice/service.py:1668-1679 | start offset plus match offset is an occurrence in the whole text |
| BreadthFirst.BfsIsDistanceOrder | src/folio_lattice/service.py:1214-1256 | breadth-first order lists every reachable node once, nearest first, each at its true distance |
| BreadthFirst.ExpandKeepsInv | src/folio_lattice/service.py:1303-1331 | expanding the next node of the queue keeps the search invariant |
| BreadthFirst.ShortestIsSimple | src/folio_lattice/service.py:1303-1331 | a shortest walk passes no node twice |
| GraphSearch.Neighbours | src/folio_lattice/service.py:1229-1247 | the rows of one step are exactly the readable other ends of the tenant's edges at the node |
| GraphSearch.RowsOfOneEdge | src/folio_lattice/service.py:1229-1247 | an edge of the tenant gives the other artifact it joins, if that may be read; in a traversal only along its direction |
| GraphSearch.RowsInOrder | src/folio_lattice/service.py:1229-1247 | the rows come in the order of the edges |
| GraphSearch.RowLoop | src/folio_lattice/service.py:1248-1255 | one inner loop, which breaks off at the bound |
| GraphSearch.ComponentIds | src/folio_lattice/service.py:1214-1256 | the result is the breadth-first order of the readable graph cut at the clamped limit; refusals as for one artifact |
| GraphSearch.ComponentMeaning | src/folio_lattice/service.py:1214-1256 | only artifacts joined to the start by readable artifacts, and below the limit all of them |
| GraphSearch.ComponentOrder | src/folio_lattice/service.py:1214-1256 | each artifact once, the start first, in order of distance |
| GraphSearch.LargerLimitExtends | src/folio_lattice/service.py:1214-1256 | a larger limit only adds artifacts at the end |
| GraphSearch.AddPaths | src/folio_lattice/service.py:1325-1331 | one inner loop of the path search |
| GraphSearch.ReadableGraphPaths | src/folio_lattice/service.py:1271-1332 | the keys are the cut breadth-first order, and every path is a shortest simple path of the readable graph |
| GraphSearch.PathsAreReadable | src/folio_lattice/service.py:1271-1332 | every path starts at the root, ends at its key, is readable and joined edge by edge, and no readable path is shorter |
| GraphSearch.PathOrderIsComponent | src/folio_lattice/service.py:1214-1332 | with a current version everywhere the path search finds exactly the component, in the same order |
| Traversal.RowLoop | src/folio_lattice/service.py:1785-1805 | one inner loop of the traversal, which breaks off at the limit |
| Traversal.Traverse | src/folio_lattice/service.py:1754-1806 | depth check, access check, and the full traversal cut at the clamped limit |
| Traversal.DeeperExtends | src/folio_lattice/service.py:1754-1806 | for a fixed limit the result for a depth is a beginning of the result for any greater depth |
| Traversal.TraversalIsComplete | src/folio_lattice/service.py:1754-1806 | a hop is in the full traversal exactly when it leaves an artifact at readable outgoing distance below the depth bound for a readable target, with depth one more |
| Traversal.WalksAreRoutes | src/folio_lattice/service.py:1771-1784 | the walks that distances count are the routes of readable artifacts joined edge by edge, each taken from source to target |
| Traversal.HopsNearestFirst | src/folio_lattice/service.py:1754-1806 | hops come nearest first, so a limit cuts off the farthest |
| Traversal.NoHopTwice | src/folio_lattice/service.py:1754-1806 | no hop is reported twice |
| AuditExport.Matching | src/folio_lattice/service.py:2947-2968 | the query selects exactly the events of the tenant, from the first to the last moment of the window, and after the cursor |
| AuditExport.OneBatch | src/folio_lattice/service.py:2976-2990 | the loop over one batch of 128 rows, with both limits and the look-ahead |
| AuditExport.ExportAuditEvents | src/folio_lattice/service.py:2921-3000 | the page, its cursor and its errors are those of `ExportOf`, although only one row more than the page is fetched |
| AuditExport.ExportedBelongs | src/folio_lattice/service.py:2944-2957 | every event of a page is in the log, of the tenant, within the window and after the cursor |
| AuditExport.MatchingIsWindow | src/folio_lattice/service.py:2944-2968 | the rows a log has in a window, said without the query, are what the query selects |
| AuditExport.PageIsLongestPrefix | src/folio_lattice/service.py:2969-3000 | a page is the longest beginning of the matching log within 10,000 events, 1 MiB and the requested number; it has no cursor exactly at the end of the log |
| AuditExport.CursorContinues | src/folio_lattice/service.py:2936-2956 | the query after a cursor selects exactly what comes after the event it names |
| AuditExport.ExportIsNextPage | src/folio_lattice/service.py:2921-3000 | rows outside the window make no difference to the page after a cursor |
| AuditExport.PagesMakeTheLog | src/folio_lattice/service.py:2969-3000 | following the cursors, the pages concatenate to exactly the matching log |
| AuditExport.ExportGetsThrough | src/folio_lattice/service.py:2969-2990 | the export reaches the end if and only if every matching event is intact and fits the byte limit on its own |
| AuditExport.FollowedPagesMakeTheLog | src/folio_lattice/service.py:2921-3000 | calls that hand on the cursor, over a log that changes outside the window and with any limits: the pages concatenate to a beginning of the window's rows, to all of them exactly when the last page has no cursor, in no more calls than rows |
| AuditExport.EveryEventOnOnePage | src/folio_lattice/service.py:2921-3000 | when the last page has no cursor every event of the log of that tenant and window is on the pages at exactly one place |
| AuditExport.FollowingGoesOn | src/folio_lattice/service.py:2969-3000 | as long as there is a cursor the next call gives another page, if every row of the window is intact and fits the byte limit |
| ExternalFence.StepKeepsInv | src/folio_lattice/external_mcp.py:881-1082 | every step of every call keeps lock, fence, audit and slots consistent |
| ExternalFence.InFlightOnlyWhileActive | src/folio_lattice/external_mcp.py:776-1056 | in every interleaving an upstream is contacted, by a call, a read or a health probe, only while its connection is active, and the tool or resource approved |
| ExternalFence.AtMostOneUpstream | src/folio_lattice/service.py:2432-2450 | the fence is one database lock: no two calls, reads or health probes are ever in flight together |
| ExternalFence.RevokedStaysQuiet | src/folio_lattice/service.py:2475-2499 | a connection that is revoked stays so, and no call, read or health probe on it is in flight or starts later |
| ExternalFence.CommittedRevocationIsFinal | src/folio_lattice/service.py:2475-2499 | from the commit of a revocation on, in every continuation, nothing on its connection is in flight |
| ExternalFence.RevokedIffOneRevokedRow | src/folio_lattice/service.py:2475-2499 | in every interleaving a connection is revoked exactly when one "revoked" row is persisted for it |
| ExternalFence.UnapprovedIsDenied | src/folio_lattice/service.py:2530-2617 | a use of an inactive connection or of a tool or resource that is not approved is audited as denied and never contacts the upstream |
| ExternalFence.InactiveIsNotProbed | src/folio_lattice/external_mcp.py:793-809 | a probe of a connection that is not active ends without contacting its upstream |
| ExternalFence.WrongCallReturnsNothing | src/folio_lattice/external_mcp.py:932-1056 | after bad arguments, a failing validator, credential, lock, upstream, check, commit or audit row, in every continuation, a call returns nothing of its upstream |
| ExternalFence.FailureIsLogged | src/folio_lattice/external_mcp.py:793-1056 | which outcome is audited for each failure of a call and each result of a probe |
| ExternalFence.AdmittedIffRoom | src/folio_lattice/external_mcp.py:592-604 | in every interleaving a call is admitted exactly when the rate limiter allows it and the calls that hold a slot leave room in all three bounds; otherwise nothing but that call changes |
| ExternalFence.TurnedAwayForGood | src/folio_lattice/external_mcp.py:592-601 | a call that is not admitted contacts no upstream and returns nothing in any continuation |
| ExternalFence.ReturnedIffOneAllowedRow | src/folio_lattice/external_mcp.py:1017-1056 | a finished call returned the upstream's result exactly when one "allowed" audit row was persisted for it |
| ExternalFence.SlotsMatchCalls | src/folio_lattice/external_mcp.py:592-604 | the limiter's total and its count per key are exactly the admitted calls that have not released, within all three bounds |
| ExternalFence.NoSlotLeaks | src/folio_lattice/external_mcp.py:881-910 | when all calls have ended no slot is taken, failed calls included |
| ExternalFence.UndisturbedCallReturns | src/folio_lattice/external_mcp.py:932-1056 | an admitted call that nobody disturbs can always run to its result |
| ConcurrencyLimiter.BoundedConcurrencyLimiter.TryAcquire | src/folio_lattice/resource_limits.py:115-126 | a slot is given exactly when total, key and key count have room |
| ConcurrencyLimiter.BoundedConcurrencyLimiter.Release | src/folio_lattice/resource_limits.py:128-138 | a slot of a known key is given back, an unknown key changes nothing |
| ConcurrencyLimiter.SlotIffRoom | src/folio_lattice/resource_limits.py:115-126 | a slot is free exactly when the multiset of keys in flight leaves room in all three bounds |
| ConcurrencyLimiter.AcquireRepresents | src/folio_lattice/resource_limits.py:115-126 | acquiring keeps the map equal to the multiset of held keys, and the total equal to its size |
| ConcurrencyLimiter.ReleaseRepresents | src/folio_lattice/resource_limits.py:128-138 | so does releasing |
| ConcurrencyLimiter.ReleaseUndoesAcquire | src/folio_lattice/resource_limits.py:115-138 | releasing what was just acquired restores the limiter exactly |
| CredentialScan.DecodePasses | src/folio_lattice/external_mcp.py:1233-1245 | the decoding loop of one text: clean exactly when it settles within the passes without showing the credential |
| CredentialScan.ScanNode | src/folio_lattice/external_mcp.py:1222-1271 | what one popped value decides |
| CredentialScan.ContainsCredential | src/folio_lattice/external_mcp.py:1210-1271 | answers False exactly on results whose whole unfolding is clean and within the budget; what the unfolding goes through is `ScansWhatIsHeld` |
| CredentialScan.CleanMeansNoCredential | src/folio_lattice/external_mcp.py:1210-1271 | in a result let through, nothing uncovered in it by any path shows the credential, after any number of percent-decodings: a JSON text uncovers what it loads as, bytes their text, a dict every key and value, a list every item |
| CredentialScan.ScansWhatIsHeld | src/folio_lattice/external_mcp.py:1222-1271 | the scan goes on with exactly what a value holds, said of each kind of value on its own |
| CredentialScan.HarmlessIffAllClean | src/folio_lattice/external_mcp.py:1210-1271 | a result passes exactly when it is within the budget and whatever can be uncovered in it by any path lies within the depth bound and passes the tests on one value |
| ExceptionSearch.Search | src/folio_lattice/external_mcp.py:309-327 | the worklist over a cyclic graph of chained exceptions |
| ExceptionSearch.Contains | src/folio_lattice/external_mcp.py:309-328 | the answer of the worklist loop; True only for a matching chained error, False only if there is none or at least 256 different chained errors do not match |
| ExceptionSearch.LinkedIsChained | src/folio_lattice/external_mcp.py:318-327 | the search goes on with exactly the members of a group, the cause and the context |
| ExceptionSearch.LongChainIsMissed | src/folio_lattice/external_mcp.py:309-328 | for every number of 256 or more errors that do not match there is a chain of them whose matching error is missed |
| ExceptionSearch.RightIffFewer | src/folio_lattice/external_mcp.py:309-328 | for every n: all searches with n chained errors that do not match are right if and only if n is below 256 |
| RateLimiters.PurgeExpired | src/folio_lattice/resource_limits.py:29-31 | what stays is exactly the windows that have not run out |
| RateLimiters.BoundedRateLimiter.Allow | src/folio_lattice/resource_limits.py:27-47 | the verdict and the new windows for every branch |
| RateLimiters.SlidingIntervalBound | src/folio_lattice/resource_limits.py:27-47 | any window history admits at most 2*limit-1 requests in a half-open interval of one window |
| RateLimiters.RunIsKeyHistory | src/folio_lattice/resource_limits.py:27-47 | what a run does to one key is such a history |
| RateLimiters.RateBound | src/folio_lattice/resource_limits.py:27-47 | in every clock-ordered run a key is admitted at most 2*limit-1 times in any such interval |
| RateLimiters.RateBoundIsTight | src/folio_lattice/resource_limits.py:27-47 | and there is a run that reaches the bound, for every limit |
| RateLimiters.RetryAfterSuffices | src/folio_lattice/resource_limits.py:38-44 | waiting the reported time with nobody else calling is enough to be admitted |
| RateLimiters.KeysBounded | src/folio_lattice/resource_limits.py:33-35 | no run keeps more keys than the bound |
| DimensionLimiter.Candidates | src/folio_lattice/resource_limits.py:74-76 | the items of configured dimensions that have a value |
| DimensionLimiter.ChargeKeys | src/folio_lattice/resource_limits.py:98-101 | the loop that charges every candidate |
| DimensionLimiter.DimensionRateLimiter.Allow | src/folio_lattice/resource_limits.py:72-101 | the verdict and the new windows for every branch |
| DimensionLimiter.AdmittedIffAllHaveRoom | src/folio_lattice/resource_limits.py:87-97 | a request is admitted exactly when every one of its dimensions has room |
| DimensionLimiter.NothingToChargeIsDenied | src/folio_lattice/resource_limits.py:72-78 | a request that names no configured dimension is denied and changes nothing |
| DimensionLimiter.DimensionRateBound | src/folio_lattice/resource_limits.py:72-101 | every value of every dimension keeps the sliding-interval bound of its own limit |
| DimensionLimiter.OneDimensionIsPlain | src/folio_lattice/resource_limits.py:27-101 | on calls that name one value of one dimension it does what the plain limiter does with that limit |
| DimensionLimiter.DimensionRateBoundIsTight | src/folio_lattice/resource_limits.py:72-101 | for every value of every dimension there is a run that reaches its bound |
| DimensionLimiter.DeniedChargesNothing | src/folio_lattice/resource_limits.py:72-101 | a denied request charges no dimension |
| DimensionLimiter.KeysPerDimensionBounded | src/folio_lattice/resource_limits.py:92-97 | no run keeps more keys of one dimension than the bound |
| Base64Url.DecodeUndoesEncode | src/folio_lattice/public_mcp.py:350-369 | decoding gives back whatever was encoded within the limit |
| Base64Url.AcceptedIffCanonical | src/folio_lattice/public_mcp.py:359-369 | a text is accepted exactly when it is the encoding of some non-empty bytes, and re-encodes to itself |
| Base64Url.SameDecodingSameText | src/folio_lattice/public_mcp.py:367-368 | no two accepted texts decode to the same bytes |
| Base64Url.KnownEncodings | src/folio_lattice/public_mcp.py:350-352 | the encodings of section 10 of RFC 4648, without padding, and of the last two letters of its URL-safe alphabet |
| PrincipalRelay.Purge | src/folio_lattice/public_mcp.py:157-161 | what stays is exactly the entries that have not expired |
| PrincipalRelay.TrustedPrincipalRelay.Issue | src/folio_lattice/public_mcp.py:102-128 | the token's digest is bound to principal, binding and expiry |
| PrincipalRelay.TrustedPrincipalRelay.ResolveCapability | src/folio_lattice/public_mcp.py:137-145 | oversized tokens, the purge, and the lookup |
| PrincipalRelay.TrustedPrincipalRelay.Revoke | src/folio_lattice/public_mcp.py:147-151 | the entry is gone |
| PrincipalRelay.OpaqueUntilExpiry | src/folio_lattice/public_mcp.py:102-161 | whatever others do, an opaque token resolves to what it was issued for strictly before its expiry and not from then on |
| PrincipalRelay.OpaqueLivesItsTime | src/folio_lattice/public_mcp.py:102-161 | from its issue on, whatever others do, it resolves to what it was issued for until its time to live is over, and not from then on |
| PrincipalRelay.OpaqueGone | src/folio_lattice/public_mcp.py:147-161 | a token that was revoked or has expired never comes back |
| PrincipalRelay.SignedPrincipalRelay.Issue | src/folio_lattice/public_mcp.py:224-259 | the token is the encoded payload and the encoded signature of that encoding |
| PrincipalRelay.SignedPrincipalRelay.ResolveCapability | src/folio_lattice/public_mcp.py:268-332 | every check in order; the denylist is purged by one clock reading and the payload judged by another |
| PrincipalRelay.ResolvedIffSealed | src/folio_lattice/public_mcp.py:268-332 | a token that is not revoked resolves to a capability exactly when it has at most 4096 characters and is an encoded payload, a dot and the encoded signature of that encoding, and the payload names the relay's audience, is current, complete, and says that capability |
| PrincipalRelay.SignedPrincipalRelay.Revoke | src/folio_lattice/public_mcp.py:334-348 | the digest is denied for 60 seconds |
| PrincipalRelay.ResolvesUntilExpiry | src/folio_lattice/public_mcp.py:224-332 | an issued token resolves to its principal and binding exactly until its last whole second is over |
| PrincipalRelay.RevokedNeverResolves | src/folio_lattice/public_mcp.py:334-348 | with a time to live below 60 whole seconds a revoked token never resolves again, even after its entry is purged |
| PrincipalRelay.RevokedMayResolveAtSixty | src/folio_lattice/public_mcp.py:334-348 | with 60 seconds it does, in a concrete run |
| PrincipalRelay.OutlivesRevocationIffSixty | src/folio_lattice/public_mcp.py:173-348 | some run lets a revoked token resolve if and only if the time to live is 60 |
| Sessions.MembershipStore.Add | src/folio_lattice/auth.py:189-233 | a new mapping, or the reason there is none; an existing mapping is never replaced |
| Sessions.MembershipStore.SetStatus | src/folio_lattice/auth.py:235-249 | only the status changes |
| Sessions.MembershipStore.SetScopes | src/folio_lattice/auth.py:251-270 | only the scopes change |
| Sessions.MembershipStore.SeedFile | src/folio_lattice/auth.py:290-323 | the loop over the records, and what is already written when one is refused |
| Sessions.SeedKeepsMapping | src/folio_lattice/auth.py:308-323 | no file changes who an identity is |
| Sessions.SeedGives | src/folio_lattice/auth.py:290-323 | an accepted file leaves every identity it names as its last record says, and all others alone |
| Sessions.SeedLeavesOthers | src/folio_lattice/auth.py:290-323 | a file, even one refused halfway, changes no identity it does not name |
| Sessions.ChangesAreThere | src/folio_lattice/auth.py:189-270 | an accepted change is there afterwards, is presentable, touches one identity and of its membership only what it says |
| Sessions.SessionStore.Create | src/folio_lattice/sessions.py:111-137 | a session with the tenant, actor and scopes of an active membership |
| Sessions.SessionStore.Resolve | src/folio_lattice/sessions.py:228-283 | the answer and the new row for every branch |
| Sessions.SessionStore.Revoke | src/folio_lattice/sessions.py:285-297 | revokes once, and says whether it did |
| Sessions.SessionStore.BeginAuth | src/folio_lattice/sessions.py:153-194 | expired transactions go, the new one is stored |
| Sessions.SessionStore.ConsumeAuth | src/folio_lattice/sessions.py:196-220 | hands a live transaction out and deletes it |
| Sessions.SessionStore.DiscardAuth | src/folio_lattice/sessions.py:222-226 | the transaction is gone |
| Sessions.RefusedForEver | src/folio_lattice/sessions.py:228-297 | where nothing comes between the read and the update of a request: once refused, a session is refused at every later time, whatever becomes of its membership |
| Sessions.RevokedIsRefused | src/folio_lattice/sessions.py:228-297 | after a revocation, with undisturbed requests, the session is refused at every later time |
| Sessions.SuspendedIsRefused | src/folio_lattice/sessions.py:249-266 | a session whose membership is not active or has other scopes is refused, and once it was presented for ever |
| Sessions.UndisturbedSessionResolves | src/folio_lattice/sessions.py:111-283 | a session that nobody disturbs resolves until the first of its two limits is reached, and not from then on |
| Sessions.TwoStepsResolve | src/folio_lattice/sessions.py:231-283 | the read step and the update step of a request, with nothing in between, are `resolve` |
| Sessions.ComesBackIffRevivable | src/folio_lattice/sessions.py:231-268 | with overlapping requests a session that is over comes back in some continuation if and only if it is over for idleness alone and a request is under way that read it in time and late enough |
| Sessions.RefusedComesBack | src/folio_lattice/sessions.py:231-268 | the interleaving in which a refused session is let in again |
| Sessions.OriginStaysRacing | src/folio_lattice/sessions.py:228-297 | in no interleaving do tenant, actor, scopes or deadline of a session change |
| Sessions.SuccessIsAsCreated | src/folio_lattice/sessions.py:111-283 | every success gives tenant, actor, scopes and times as of creation, the moment of the success as last seen, and lies before the absolute deadline |
| Sessions.SuccessWithinIdleLimit | src/folio_lattice/sessions.py:240-263 | two successes with none between are closer than the idle limit |
| Sessions.MismatchNeverFires | src/folio_lattice/sessions.py:251-257 | in no run does a session meet another tenant or actor: only status and scopes can end it |
| Sessions.ConsumedAtMostOnce | src/folio_lattice/sessions.py:196-220 | a sign-in transaction is consumed at most once |
| Sessions.ConsumeGivesWhatBegan | src/folio_lattice/sessions.py:153-220 | left alone it is there until it expires, exactly as it was begun |
| Sessions.DiscardedIsGone | src/folio_lattice/sessions.py:222-226 | a discarded transaction is not handed out again unless it is begun again |
| Deployment.Deployment.SetAside | src/folio_lattice/deployment.py:197-203 | a sidecar is moved away if there is one |
| Deployment.Deployment.Undo | src/folio_lattice/deployment.py:212-226 | the branch that moves everything back |
| Deployment.Deployment.ReplaceLive | src/folio_lattice/deployment.py:189-233 | database and blobs are both the staged ones, without sidecars, or every live file is as before; it succeeds exactly when no step fails |
| Deployment.Deployment.CopyDatabase | src/folio_lattice/deployment.py:131-139 | the content read through the write-ahead log; closing the copied database may fold the log into it, whether or not the copy succeeds |
| Deployment.Deployment.TakeSnapshot | src/folio_lattice/deployment.py:142-157 | a sealed copy of what is live, write-ahead log applied, or none; either way nothing else changes but that the live log may be folded |
| Deployment.Deployment.StageSnapshot | src/folio_lattice/deployment.py:160-186 | copies exactly when the snapshot still matches its manifest and is ready |
| Deployment.Deployment.RestoreSnapshot | src/folio_lattice/deployment.py:308-311 | the snapshot becomes live exactly when no step fails and it can be restored; when it fails, what was live is live or the snapshot is, never a mixture |
| Deployment.Deployment.Record | src/folio_lattice/deployment.py:89-96 | the version file is written, and with it the version named, when the first two steps succeed; success needs the unlink as well |
| Deployment.Deployment.TransactionalUpgrade | src/folio_lattice/deployment.py:254-305 | done, refused, restored or recovery failed: the state, the version file and the exact condition of each, a failing unlink of the temporary version file included; after a failed recovery the live pair is the migrated or the earlier one; never a failed recovery with one failing step |
| Deployment.Deployment.RollbackDeployment | src/folio_lattice/deployment.py:314-364 | the same for a rollback; after a failed recovery the live pair is the target's or the earlier one |
| Deployment.SwitchUndone | src/folio_lattice/deployment.py:211-233 | wherever the switch stopped, undoing and cleaning restores every live file and leaves no temporary name |
| Deployment.SwitchIsAtomic | src/folio_lattice/deployment.py:254-364 | version and state change together or not at all, but for two cases: a failed unlink leaves the target named over the earlier state, a failed recovery may leave the new state under the old version; never a mixture of database and blobs |
| Deployment.MisnamedIffUnlinkFailed | src/folio_lattice/deployment.py:89-96 | with a working recovery the version file is wrong exactly when the version was named and the state restored |
| Deployment.MisnamedUpgrade | src/folio_lattice/deployment.py:254-305 | the run: only the unlink fails, the earlier state is live again and the version file names the target |
| Deployment.FailedUpgradeRollsBackIfReady | src/folio_lattice/deployment.py:254-364 | after a failed recovery the snapshot of the upgrade can be rolled back to exactly when what is live is ready |
| Deployment.SealedWasLive | src/folio_lattice/deployment.py:142-157 | over any run, failed recoveries included, what a manifest seals was live under the version it names |
| Deployment.RollbackGoesBack | src/folio_lattice/deployment.py:314-364 | a rollback only installs a state that was live under the version asked for, even if snapshots were damaged or recoveries failed |
| Deployment.UpgradeRolledBack | src/folio_lattice/deployment.py:254-364 | rolling back to an upgrade's snapshot, however much later and whatever failed in between, restores version and state from before it |
| Deployment.RollbackIsReady | src/folio_lattice/deployment.py:254-364 | right after an upgrade everything that rollback checks holds |
| Deployment.VersionFileLeadsBack | src/folio_lattice/deployment.py:254-364 | the version file an upgrade leaves names the version before it and a snapshot of just what was live under it, to which a rollback passes every check |
| Deployment.SnapshotSeesTheLog | src/folio_lattice/deployment.py:131-157 | a snapshot holds what SQLite reads, the content of the write-ahead log as long as there is one |
| Deployment.VersionIsSafeName | src/folio_lattice/deployment.py:21-31 | an accepted version has 1 to 128 characters, starts with no dot and holds no separator or blank |
| Backup.CollectBlobs | src/folio_lattice/backup.py:673-690 | the loop over the referenced blobs |
| Backup.CreateBackup | src/folio_lattice/backup.py:623-780 | the backup, or the first reason there is none |
| Backup.ExtractPayload | src/folio_lattice/backup.py:455-492 | the files of an archive whose every member is safe and within bounds |
| Backup.ExtractedIsOneToOne | src/folio_lattice/backup.py:455-492 | an archive that is accepted has only regular files, no name twice, and each member becomes one file |
| Backup.ValidateBlobEntries | src/folio_lattice/backup.py:495-528 | accepts exactly the lists with valid, distinct paths and the right count and total |
| Backup.InspectExtracted | src/folio_lattice/backup.py:531-581 | accepts exactly the files the manifest and the database describe |
| Backup.VerifiedExtract | src/folio_lattice/backup.py:584-620 | gives the files exactly of a backup that passes every check |
| Backup.VerifiedIsGenuine | src/folio_lattice/backup.py:584-620 | a backup that verifies carries the tag of just its manifest under the provider's key, and a payload sealed for it with the wrapped data key |
| Backup.VerifiedIsDescribed | src/folio_lattice/backup.py:531-581 | its files are the database and the referenced blobs the manifest lists, with the digests and lengths it says |
| Backup.TamperedIsRefusedOrSame | src/folio_lattice/backup.py:584-620 | whatever is done to a backup, under the tag it has it is refused or gives the same files |
| Backup.CreatedVerifies | src/folio_lattice/backup.py:584-780 | what was created verifies, with the same content, exactly when database and manifest are each within 16 MiB |
| Backup.RestoreTarget.RestoreBackup | src/folio_lattice/backup.py:809-883 | both targets hold the verified files or neither is there; it succeeds exactly when no step fails and the backup can be restored |
| Backup.RestoreGivesBack | src/folio_lattice/backup.py:623-883 | restoring what was created gives the same database and exactly the referenced blobs, under the exact condition above |
| Backup.EmptyStateIsNotRestorable | src/folio_lattice/backup.py:623-883 | a small, ready state without a blob is backed up and cannot be restored |
| Backup.LargeStateIsNotRestorable | src/folio_lattice/backup.py:455-883 | a ready state with a database of more than 16 MiB is backed up and cannot be restored |
| AgentRecipe.CreateIffTaken | src/folio_lattice/agent_recipe.py:204-218 | a create goes through exactly when the service accepts the part, and changes nothing otherwise |
| AgentRecipe.CreateAddsItem | src/folio_lattice/agent_recipe.py:204-218 | a create that is accepted adds exactly the new item to what the client can list and read |
| AgentRecipe.LinkAdds | src/folio_lattice/agent_recipe.py:287-300 | a link is there afterwards and nothing the client sees changes |
| AgentRecipe.SettledDecides | src/folio_lattice/agent_recipe.py:165-201 | on settled ground the client finds the one match, and creates only when there is none |
| AgentRecipe.DecideMeans | src/folio_lattice/agent_recipe.py:165-201 | what the client decides for each number of matches and candidates |
| AgentRecipe.CreatedItemSays | src/folio_lattice/agent_recipe.py:155-218 | what is created has the text of the part, under a context with its bundle, role, path and digest |
| AgentRecipe.Client.FindMatches | src/folio_lattice/agent_recipe.py:165-201 | listing and reading the candidates decides, or a call was lost |
| AgentRecipe.Client.Ensure | src/folio_lattice/agent_recipe.py:155-218 | the artifact was found, created or refused, or a call was lost before or after it took effect |
| AgentRecipe.Client.RunRecipe | src/folio_lattice/agent_recipe.py:242-330 | one attempt, wherever it is cut off, keeps the ground from which another can finish and does not change whether one can; undisturbed it succeeds if and only if each part was there before or is one the service takes; an invalid recipe changes nothing |
| AgentRecipe.CompleteBundleIs | src/folio_lattice/agent_recipe.py:242-330 | a complete bundle is one stylesheet, one script and one page under their names, types and roles, the page for that stylesheet and that script in this order, and a "references" link from the page to each |
| AgentRecipe.AttemptsConverge | src/folio_lattice/agent_recipe.py:155-330 | after any number of cut-off attempts the first undisturbed one completes the bundle, one artifact per role and both links, if and only if before the first attempt each part was there or is one the service takes; every later one changes nothing and returns the same ids |
| AgentRecipe.UnwelcomeNeverCompletes | src/folio_lattice/agent_recipe.py:155-330 | otherwise every attempt fails |
| AgentRecipe.UndisturbedCompletes | src/folio_lattice/agent_recipe.py:155-330 | it does complete the bundle when the service takes both leaves and the pages for the ids that can come up |
| AgentRecipe.FreshBundleIsProgress | src/folio_lattice/agent_recipe.py:165-201 | a bundle nobody has begun, with fewer than 100 candidates per role, is such ground |
| AssetPages.PageNamesItsAssets | src/folio_lattice/agent_recipe.py:278-283 | a page names both assets by id and version: no two pairs of assets share a page |
| AssetPages.OnePageDecides | src/folio_lattice/agent_recipe.py:278-283 | the service takes one page exactly when it takes the page for any other pair of assets |
| AssetPages.NamingRecipeCompletes | src/folio_lattice/agent_recipe.py:242-330 | an undisturbed attempt completes the bundle if and only if each part was there before the first attempt or is one the service takes, the page for any one pair of assets; what ids are drawn plays no part |
| AssetPages.NamingRecipeExists | src/folio_lattice/agent_recipe.py:221-283 | for any three bodies within the limits there is a valid recipe whose pages name their assets and whose every part is taken |
| AssetPages.BlankNameNeverCompletes | src/folio_lattice/agent_recipe.py:221-239 | with a blank name for any of the three parts a recipe passes its own validation and no attempt ever completes it |

## Left out

- `search` and its snippets: ranking, the full-text index and the candidate cap belong to SQLite.
- Listing artifacts, `versions`, `artifact_acl`, chunk descriptors and the other readers that only project rows; the
  order of `versions` is by time and id, not by parent.
- Local mode, in which the actor is None and every check passes: an actor is always given.
- The metadata read after a successful write, which may be refused by a revocation in between.
- The `path` text attached to nodes of the graph answer.
- Unicode: blank characters are the ASCII ones, and case is folded for ASCII, which is enough to recognise the
  reserved share reason.
- Timestamps of rows other than edges and audit events; revocation reasons; the legal hold and purge of audit events.
- The text form of audit cursors: a cursor is the pair of a time and an id. The record an export keeps of itself.
- ExternalFence.StepKeepsInv: registration bounds, status reads and listings appear only as operations that take and
  release a slot; failures inside SQLite other than a busy lock are steps that fail.
- CredentialScan.ContainsCredential: percent-decoding, JSON parsing and UTF-8 are functions given as parameters.
- DNS resolution, transports, size limits of requests and responses, and everything asynchronous below the broker.
- DimensionLimiter.DimensionRateLimiter.Allow: the reported waiting time is that of the first exhausted dimension and
  is not claimed to suffice.
- Unordered clock readings: the rate bounds hold for calls whose readings do not run backwards.
- PrincipalRelay.SignedPrincipalRelay.Issue: the digest of the arguments is part of the binding handed in; endpoint and
  secret checks of the constructor are not modelled. What is checked of a signature is `ResolvedIffSealed`; how hard
  one is to forge is not claimed.
- OIDC, JWT and key sets; `create_for_identity` and `lookup`, which only wrap other calls.
- Sessions.SessionStore.Resolve: where requests overlap, clock reading, row and membership are read in one step.
- Deployment.Deployment.Undo: its moves, and the clean-up, are taken to succeed, and the process to survive; the code
  promises nothing else there.
- Deployment.Deployment.TakeSnapshot: writers that change blobs while a snapshot is being copied; a missing live
  database, which SQLite would create empty, is a failed copy. Staged copies that stay behind when a later step of a
  rollback fails are allowed by the contracts, as in the code.
- Symbolic links and special files in the blob tree and in backups.
- Backup.CreateBackup: key references, key versions and timing fields of the manifest; the refusal of an output
  directory that is not empty; removal of partial output. `verify_backup` only runs `VerifiedExtract`.
- Backup.VerifiedExtract: the optional expectations about key, tenant scope and backup id.
- AgentRecipe.Client.RunRecipe: the content of the searches, reads and manifest it returns; other clients editing the
  same bundle at the same time. `artifact_list` gives its candidates in some order, here by id.
- HTTP routing, the web interface, the renderer, settings, command-line tools, `backup_ops`, `bridge`, `sandbox` and
  `tls`.
