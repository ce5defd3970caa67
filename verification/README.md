# Authorization control plane: a verified model

The control plane keeps tenants and their declarative specs (C#, `src/`) and serves the console that edits,
compares and explains them (TypeScript, `web/`). This project models the parts whose correctness is hard to see
from the code and proves what they are for, over all inputs, all runs or all interleavings.

`dafny verify dfyconfig.toml` checks everything. Code that updates state in place is a class or a method with loops,
proved against a function on values; the promises are lemmas about those functions.

| files | what they are about |
|---|---|
| `LineDiff`, `AlignOrder`, `ChangePairing`, `PairingTheorems`, `YamlLines`, `DiffViews`, `UnifiedView`, `ViewTones` | the spec diff: optimal alignment and its order, pairing of changed lines, summary and the two views |
| `Resolver`, `ResolverRun`, `ResolverMeaning`, `ResolverTheorems`, `ResolverCap` | the relationship check: what it means, what the depth-capped evaluation decides, when it is cut off, its counters |
| `ModelSummary`, `ModelDeclarations` | rewrite depth of an authorization model, cyclic models included, and how declarations are collected |
| `Sorting`, `Canonical`, `CanonicalReader`, `CanonicalTheorems`, `SpecHash` | canonical JSON, reading it back, the spec hash and the no-change test |
| `Cursor`, `Paging` | the opaque cursor and keyset paging over a changing table |
| `Database`, `SpecProtocol`, `Handlers`, `SpecTheorems`, `SpecAnswers` | creating tenants and writing specs as interleaved requests |
| `Idempotency`, `IdempotencyReplay` | the Idempotency-Key middleware and store as interleaved requests |
| `Lifecycle`, `LifecycleHistory`, `Backoff`, `Binary64` | tenant phases, retry counters and the jittered retry schedule in doubles |
| `ReconcileRuns`, `Relations`, `RelationSeeds`, `SpecStore`, `SpecSeeds` | the console's in-memory stores and their seeds |
| `FirstAccess`, `SpecAccess`, `SpecAccessTheorems`, `RelationAccess` | the same stores behind their lazily seeded first access, where calls overlap |

Each protocol is a state machine whose steps are the stretches of code between two awaits. A request's reads
(tenant, latest spec, idempotency row) are separate steps from its commit; unique indexes and primary keys are the only
guard. The console's spec and relation stores are seeded on first access behind an await, so each seeding makes a copy
of its own and a step says which copy it works on. Conditional writes follow If-Match (section 13.1.1 of RFC 9110),
412 (section 15.5.13 of RFC 9110) and 428 (section 3 of RFC 6585). Clocks, drawn ids, jitter, rounding, digests and the handler behind the middleware are
parameters.

## Where the code and its comments part

- The no-change answer of a spec write names the generation read before the latest spec was looked up. After a write in
  between it is not the generation of the document compared with, and may hold another document
  (`SpecTheorems.StaleNoOp`); it is that generation exactly when none was written in between (`SpecTheorems.NoOpAnswer`).
- An editor who had loaded the tenant when another write committed is promised a 412 and gets a fault, exactly when
  the generation has moved since the load (`SpecTheorems.LoserGetsFault`, with a run in `SpecTheorems.LoserRun`).
- An expired idempotency row is never replaced, so its key protects nothing from then on
  (`Idempotency.ExpiredKeyAlwaysRuns`, with a run in `Idempotency.RunsAgainAfterADay`).
- `MarkDegraded` changes fields before a bad jitter is noticed; the promised retry is missing exactly when the guard
  refuses the jitter and none was scheduled (`Lifecycle.BadJitterLosesTheRetry`, with three calls in
  `Lifecycle.DegradedWithoutRetry`). The guard lets a NaN through, which waits nothing: among accepted jitters exactly a
  NaN leaves the closed band (`Backoff.BandIff`).
- Jitter is said to map onto [-20 %, +20 %). In doubles the delay stays below the upper end exactly for jitters up to
  1 - 2^-51 (`Backoff.HalfOpenIff`); the three larger doubles below 1 reach it at every attempt, 18 minutes at the cap
  (`Backoff.LongestIsReached`, at 1 - 2^-53).
- The unified view keeps fewer lines before the first change than asked for, exactly when the leading equal run is
  shorter than twice a non-zero context (`UnifiedView.LeadingContext`).
- "No changes" means equal documents only within the cell limit (`DiffViews.NoChangesIffEqual`).
- A denial after truncation proves nothing: a chain of computed relations is answered correctly exactly while it has
  fewer rewrites than the cap (`ResolverTheorems.CapLosesLongChains`).
- A spec save suspends between appending its version and recording its response. A recorded response lasts exactly when
  no other save under the same key is suspended (`SpecStore.AnswerLastsIffFinal`, `SpecStore.SameKeyAppendsTwice`).
- "Appends an immutable version": two overlapping first saves each seed a state of their own, both are acknowledged at
  the same generation and the first is lost (`SpecAccessTheorems.FirstSaveIsLost`). An acknowledged save is kept exactly
  when no seeding replaced its copy (`SpecAccessTheorems.SavedKeptIff`); every continuation keeps what is visible exactly
  when no call is still seeding or nobody has appended yet (`SpecAccessTheorems.EveryRunKeepsIff`).
- "Atomic batch": in the same way one of two overlapping first relation batches is lost
  (`RelationAccess.FirstBatchIsLost`). The batches that built the visible store are all the accepted ones exactly when no
  seeding replaced a store on which one was accepted (`RelationAccess.VisibleIsBuiltByAllIff`); and the visible store is
  safe from continuations that accept nothing exactly when no call is still seeding or it still equals the seed
  (`RelationAccess.VisibleStaysIff`).

## Model

| member | source | states |
|---|---|---|
| `LineDiff.CellValue` | web/src/features/spec/diff.ts:60 | a cell computed from its three neighbours is the length of a longest common subsequence of the two remainders, and fits 32 bits |
| `LineDiff.FillTable` | web/src/features/spec/diff.ts:55-62 | after the two loops every cell of the flat table holds the value of its remainder pair |
| `LineDiff.WalkTable` | web/src/features/spec/diff.ts:64-78 | the walk emits the table-guided alignment up to where one document is used up |
| `LineDiff.AlignLines` | web/src/features/spec/diff.ts:42-88 | both branches produce the specified alignment, remainders included |
| `LineDiff.LcsIsUpperBound` | web/src/features/spec/diff.ts:55-62 | no common subsequence of two line lists is longer than the recurrence of the table says |
| `LineDiff.AlignReconstructs` | web/src/features/spec/diff.ts:42-88 | each side of the operations is exactly its document, numbered 1, 2, 3 in order, in both branches |
| `LineDiff.AlignIsOptimal` | web/src/features/spec/diff.ts:42-88 | within the cell limit the kept lines are a common subsequence and none is longer; above it nothing is kept |
| `AlignOrder.AlignRemovesFirst` | web/src/features/spec/diff.ts:64-86 | of the optimal alignments the one is taken in which no added line is directly followed by a removed one, in both branches |
| `ChangePairing.PairChangesLoop` | web/src/features/spec/diff.ts:103-135 | the nested loops compute the chunk-by-chunk pairing |
| `ChangePairing.PairKeepsLines` | web/src/features/spec/diff.ts:103-135 | pairing changes neither document and keeps the unchanged lines |
| `ChangePairing.PairIsIdempotent` | web/src/features/spec/diff.ts:103-135 | a second pass changes nothing |
| `PairingTheorems.ChangedSharesKey` | web/src/features/spec/diff.ts:90-123 | a line newly shown as changed joins two lines with the same key at the same indent, never list items |
| `PairingTheorems.NothingLeftToPair` | web/src/features/spec/diff.ts:97-135 | in the result no removed run followed by an added run is still of the same shape with matching keys |
| `AlignOrder.EditedLinesAreChanged` | web/src/features/spec/diff.ts:42-135 | two documents of equally many plain-keyed lines with pairwise equal keys and no line in common come out as one changed line each, within the cell limit and above it |
| `YamlLines.YamlKeyMeans` | web/src/features/spec/diff.ts:90-95 | a line has a key iff it splits into white space, an optional dash with white space, that name, white space, a colon and any rest; the key is indent width, dash and name |
| `DiffViews.SummarizeLoop` | web/src/features/spec/diff.ts:141-159 | one pass counts the kinds and the maximal runs of non-equal operations |
| `DiffViews.PairKeepsHunks` | web/src/features/spec/diff.ts:103-159 | pairing neither splits nor joins hunks |
| `DiffViews.SummaryConserves` | web/src/features/spec/diff.ts:137-159 | the counts account for every line of both documents; unchanged and hunk counts are those of the raw alignment |
| `DiffViews.NoChangesIffEqual` | web/src/features/spec/diff.ts:137-229 | "no changes" is reported iff the documents are equal and within the cell limit |
| `DiffViews.SideBySide` | web/src/features/spec/diff.ts:201-223 | the loop fills each pane with the rows of its side |
| `DiffViews.PaneShowsLines` | web/src/features/spec/diff.ts:201-223 | a pane is the list of lines of its side |
| `DiffViews.PanesAreTheDocuments` | web/src/features/spec/diff.ts:137-223 | through alignment, pairing and rendering each pane is exactly its document, numbered from 1 |
| `ViewTones.PaneTones` | web/src/features/spec/diff.ts:200-223 | removed rows appear on the left only and added ones on the right only, as many as there are such lines; changed ones on both |
| `ViewTones.PlainIsKept` | web/src/features/spec/diff.ts:200-223 | the plain rows of either pane are the kept lines |
| `UnifiedView.UnifiedLines` | web/src/features/spec/diff.ts:166-198 | the loop produces the run-by-run collapsed view |
| `UnifiedView.UnifiedCollapses` | web/src/features/spec/diff.ts:161-198 | the view is the full list of rows with blocks of context rows, and nothing else, replaced by their length |
| `UnifiedView.UnifiedConserves` | web/src/features/spec/diff.ts:161-198 | every change is shown once and in order; shown plus hidden context is the unchanged count |
| `UnifiedView.LeadingContext` | web/src/features/spec/diff.ts:188-190 | how much of a leading equal run is shown, and exactly when that is the promised context |
| `ViewTones.MiddleContext` | web/src/features/spec/diff.ts:188-194 | a run between changes shows n lines at each end and the number hidden between, or all of it up to 2n lines |
| `ViewTones.TrailingContext` | web/src/features/spec/diff.ts:188-194 | the last run shows n lines and the number hidden, or all of it up to n lines |
| `ViewTones.EverythingIsShown` | web/src/features/spec/diff.ts:182-186 | without a context limit every row is shown |
| `ViewTones.FullViewShows` | web/src/features/spec/diff.ts:166-198 | without its removed rows the full view is the right pane, and these are the removed rows of the left pane |
| `Resolver.Find` | web/src/features/playground/resolver.ts:92-93 | the tuple found is stored and says the triple; none is found only if none says it |
| `Resolver.FindsFirst` | web/src/features/playground/resolver.ts:92-93 | of several tuples for the triple the first one is found |
| `Resolver.TargetsInOrder` | web/src/features/playground/resolver.ts:154-155 | the targets of a tupleset come in stored order |
| `ResolverRun.Ctx.Visit` | web/src/features/playground/resolver.ts:95-98 | one more node, and the depth taken into the maximum |
| `ResolverRun.Ctx.DirectLeaf` | web/src/features/playground/resolver.ts:100-128 | a leaf, with the counters and the decisive tuple moved on by that leaf |
| `ResolverRun.Ctx.Evaluate` | web/src/features/playground/resolver.ts:130-170 | the returned node is the specified tree and the shared counters moved on by exactly its measures |
| `ResolverRun.Ctx.EvaluateBranches` | web/src/features/playground/resolver.ts:146-163 | direct, computed and tuple-to-userset branches in order, counters in step |
| `ResolverRun.TreeIsSound` | web/src/features/playground/resolver.ts:95-170 | a node is allowed iff it has a first hit leaf in pre-order, whose tuple is stored and is the checked user's; nothing is visited more than one level past the cap |
| `ResolverRun.Explain` | web/src/features/playground/resolver.ts:76-194 | node count plus truncated nodes is the tree size, maxDepth is the height without truncated nodes capped at 8 (raw at most 9), the cap flag holds iff a node was truncated, allowed iff a decisive tuple, which is the first hit |
| `ResolverMeaning.GrantedIsClosed` | web/src/features/playground/resolver.ts:139-163 | derivability of any length is closed under the rewrites |
| `ResolverMeaning.GrantedIsLeast` | web/src/features/playground/resolver.ts:139-163 | it is the least set closed under them |
| `ResolverMeaning.TreeDecidesWithin` | web/src/features/playground/resolver.ts:130-170 | a node is allowed iff its check is derivable in the levels left below the cap |
| `ResolverTheorems.AllowedIsGranted` | web/src/features/playground/resolver.ts:130-172 | allowed implies membership in the least fixpoint |
| `ResolverTheorems.UntruncatedIsExact` | web/src/features/playground/resolver.ts:130-172 | without truncation allowed is the same as membership, so a denial is a proof of non-derivability |
| `ResolverTheorems.ResponseDecides` | web/src/features/playground/resolver.ts:165-194 | the same for the response with its cap flag |
| `ResolverTheorems.AllowedIsMonotone` | web/src/features/playground/resolver.ts:130-170 | more tuples, more rewrites or a smaller depth never turn allowed into denied, despite the cap and the leaf shortcut |
| `ResolverTheorems.BatchAgrees` | web/src/features/playground/resolver.ts:197-212 | a batch without provenance answers each check as its explanation does |
| `ResolverTheorems.CapLosesLongChains` | web/src/features/playground/resolver.ts:131-134 | a chain of computed relations is always granted and is allowed iff shorter than the cap |
| `ResolverCap.CapHitIffDeep` | web/src/features/playground/resolver.ts:130-170 | the cap flag holds iff rewrites of the model over the stored tuples lead at least 8 levels on from the check, a computed rewrite counting 1 and a tuple-to-userset one to a stored target 2; an undefined check visits one node and hits no cap |
| `ResolverCap.TruncatedIffDeep` | web/src/features/playground/resolver.ts:130-170 | the same below every node at every depth |
| `ResolverCap.EveryNodeOk` | web/src/features/playground/resolver.ts:100-128 | exactly the allowed leaves carry provenance, if asked for: a stored tuple that says the leaf |
| `ResolverCap.NodeIsNamed` | web/src/features/playground/resolver.ts:100-169 | how each node is labelled and how it says it was reached |
| `ResolverCap.TtuIsNamed` | web/src/features/playground/resolver.ts:153-163 | the same for tuple-to-userset nodes: allowed iff a child is, one child per stored target |
| `ModelDeclarations.Collect` | web/src/features/authz-model/dsl.ts:168-195 | the collected model declares, in order, the lines from the first type on; each issue is that of its line, read off the lines before it; no duplicate is reported iff the model has no duplicate type name and no duplicate relation name on a type |
| `ModelSummary.FindsFirstRelation` | web/src/features/authz-model/dsl.ts:257-262 | of several relations of one name the first is followed |
| `ModelSummary.FindsLastType` | web/src/features/authz-model/dsl.ts:243 | of several types of one name the last is followed |
| `ModelSummary.LongestFromTargets` | web/src/features/authz-model/dsl.ts:247-269 | one more than the longest chains of the targets is the longest chain of the relation |
| `ModelSummary.Search.DepthOf` | web/src/features/authz-model/dsl.ts:247-269 | the memoised search ends on every model; without cycles and duplicates its answer is the longest rewrite chain, whatever was visited before |
| `ModelSummary.Summarize` | web/src/features/authz-model/dsl.ts:242-280 | the depth is at most the number of relations, and is the longest chain of an acyclic model without duplicates |
| `CanonicalTheorems.SortKeepsValues` | src/AuthzPlane.Domain/Tenants/SpecHash.cs:88-89 | ordering members by name keeps the values of every name in document order |
| `CanonicalTheorems.NormalDecidesSame` | src/AuthzPlane.Domain/Tenants/SpecHash.cs:82-113 | two documents have one normal form iff they differ only in the order of differently named members, at any depth |
| `SpecHash.NormalIsInOrder` | src/AuthzPlane.Domain/Tenants/SpecHash.cs:88-90 | in the canonical form names are in ordinal order at every depth |
| `CanonicalReader.ReadInvertsPrint` | src/AuthzPlane.Domain/Tenants/SpecHash.cs:82-113 | a token-by-token reader of JSON and the writer are inverse: a stream reads as a document iff it is its text |
| `CanonicalTheorems.PrintIsPrefixFree` | src/AuthzPlane.Domain/Tenants/SpecHash.cs:82-113 | the token stream of a document can be read back in one way only |
| `CanonicalTheorems.CanonicalDecidesSame` | src/AuthzPlane.Domain/Tenants/SpecHash.cs:71-113 | equal canonical streams iff equal up to key order, for every pair of documents, repeated names included |
| `SpecHash.Write` | src/AuthzPlane.Domain/Tenants/SpecHash.cs:82-113 | the recursive writer appends exactly the canonical stream |
| `SpecHash.CanonicaliseIsIdempotent` | src/AuthzPlane.Domain/Tenants/TenantSpec.cs:73-76 | canonicalising the stored form changes nothing, and the stored form is the same document |
| `SpecHash.StoredTextIsRead` | src/AuthzPlane.Domain/Tenants/SpecHash.cs:60-65 | the stored text reads back as the same document up to key order, with names in order, and hashing it as text gives the stored hash |
| `SpecHash.MatchesDecidesSame` | src/AuthzPlane.Domain/Tenants/TenantSpec.cs:79-80 | a key-reordered document always matches the stored hash; unless the digest collides on the two texts, nothing else does |
| `SpecHash.SameByName` | src/AuthzPlane.Domain/Tenants/SpecHash.cs:82-113 | with distinct names, equality up to key order is: the same names, each with the same value |
| `Cursor.Encode` | src/AuthzPlane.Application/Common/Cursor.cs:23-29 | the 24-byte buffer is filled and rendered as the specified text |
| `Cursor.TryDecode` | src/AuthzPlane.Application/Common/Cursor.cs:34-61 | accepts exactly the decodable texts and yields their position |
| `Cursor.EncodedDecodes` | src/AuthzPlane.Application/Common/Cursor.cs:23-61 | decoding an encoded position gives it back |
| `Cursor.DecodesOnlyItsEncoding` | src/AuthzPlane.Application/Common/Cursor.cs:34-61 | a text decodes to a position iff, white space aside, it is that position's encoding |
| `Cursor.KnownBytes` | src/AuthzPlane.Application/Common/Cursor.cs:23-29 | the 24 bytes of one position, written out: big-endian ticks, then the id with its first three fields swapped |
| `Cursor.KnownGroups` | src/AuthzPlane.Application/Common/Cursor.cs:23-29 | groups of three bytes that spell known letters, the two URL-safe characters among them |
| `Paging.PageFacts` | src/AuthzPlane.Infrastructure/Persistence/Queries/TenantQueries.cs:21-73 | a page is strictly newest first, skips no selected row, and its cursor decodes to its last row |
| `Paging.PageMeans` | src/AuthzPlane.Infrastructure/Persistence/Queries/TenantQueries.cs:21-73 | a page holds the newest rows that match the query and are older than its cursor, as many as the limit clamped to 1..100 or all that are left; there is a next cursor iff some are left out, and these are older than every row of the page |
| `Paging.NoRowTwice` | src/AuthzPlane.Infrastructure/Persistence/Queries/TenantQueries.cs:21-73 | following the cursor while rows come and go between pages returns no row twice, all newest first |
| `Paging.NoRowMissed` | src/AuthzPlane.Infrastructure/Persistence/Queries/TenantQueries.cs:21-73 | a row present and matching on every page is returned |
| `Paging.RestOfOrder` | src/AuthzPlane.Infrastructure/Persistence/Queries/TenantQueries.cs:37-48 | the rows strictly older than the n-th are the ordered list without its first n |
| `Paging.FixedTableIsListed` | src/AuthzPlane.Infrastructure/Persistence/Queries/TenantQueries.cs:21-73 | on a fixed table the pages concatenate to the full descending list, whatever the limits |
| `Paging.Follow` | src/AuthzPlane.Infrastructure/Persistence/Queries/TenantQueries.cs:21-73 | on a fixed table the walk ends |
| `Database.Append` | src/AuthzPlane.Infrastructure/Persistence/Interceptors/AuditSaveChangesInterceptor.cs:43-111 | one audit row per audited entry, in order; a bare generation bump has none |
| `Database.UnitOfWork.SaveChanges` | src/AuthzPlane.Infrastructure/Persistence/Interceptors/AuditSaveChangesInterceptor.cs:30-81 | all staged rows and their audit rows land together or none does |
| `Handlers.Tenant.BumpGeneration` | src/AuthzPlane.Domain/Tenants/Tenant.cs:72-77 | the next generation, refused on a deleted tenant, which stays as it is |
| `Handlers.Tenant.MarkDeleted` | src/AuthzPlane.Domain/Tenants/Tenant.cs:79-83 | deletion is stamped once |
| `Handlers.CommitUpdate` | src/AuthzPlane.Application/Tenants/Commands/UpdateTenantSpec.cs:75-84 | the committing stretch of an update is the commit step of the protocol |
| `Handlers.CommitCreate` | src/AuthzPlane.Application/Tenants/Commands/CreateTenant.cs:57-72 | the committing stretch of a create is the commit step of the protocol |
| `SpecAnswers.UpdateIsAnswered` | src/AuthzPlane.Application/Tenants/Commands/UpdateTenantSpec.cs:38-67 | over request and tables: invalid iff the spec is no object, 428 iff there is no If-Match, 404 iff the tenant is missing or deleted, 412 naming c iff it is live at c and If-Match is another, and loaded iff If-Match is its generation |
| `SpecAnswers.CreateIsAnswered` | src/AuthzPlane.Application/Tenants/Commands/CreateTenant.cs:30-55 | invalid iff slug, name or spec is refused, conflict iff none is and the slug is taken, otherwise on to the commit |
| `SpecAnswers.ValidSlugMeans` | src/AuthzPlane.Domain/Tenants/TenantSlug.cs:13-45 | accepted slugs are 3 to 63 characters, letters or digits at both ends and hyphens between, a final line feed included |
| `SpecAnswers.CreateCommitAnswers` | src/AuthzPlane.Application/Tenants/Commands/CreateTenant.cs:57-72 | faults iff the author is blank or id or slug is taken by then; otherwise the tenant at generation 1 and its spec row are there, field by field |
| `SpecAnswers.UpdateCommitAnswers` | src/AuthzPlane.Application/Tenants/Commands/UpdateTenantSpec.cs:75-84 | faults iff the author is blank or the generation moved; otherwise the tenant is one generation on and its spec row is there, field by field |
| `SpecAnswers.DeletionIsAudited` | src/AuthzPlane.Infrastructure/Persistence/Interceptors/AuditSaveChangesInterceptor.cs:83-111 | deleting a live tenant stamps it and adds one audit row; a deleted one stays as it is |
| `SpecAnswers.RenameIsAudited` | src/AuthzPlane.Domain/Tenants/Tenant.cs:57-66 | a rename needs a non-blank name and a live tenant, and adds an audit row iff the name changes |
| `SpecTheorems.UpdateSaved` | src/AuthzPlane.Application/Tenants/Commands/UpdateTenantSpec.cs:76-82 | what the commit leaves in all five tables, and that only a taken generation or a missing tenant stops it |
| `SpecTheorems.CreateSaved` | src/AuthzPlane.Application/Tenants/Commands/CreateTenant.cs:60-70 | the same for a create |
| `SpecTheorems.CommitIffUnraced` | src/AuthzPlane.Infrastructure/Persistence/Configurations/TenantConfigurations.cs:57-61 | the unique index lets a loaded update through iff the generation at commit time still is its If-Match |
| `SpecTheorems.LoserGetsFault` | src/AuthzPlane.Application/Tenants/Commands/UpdateTenantSpec.cs:60-84 | a loaded update whose document differs is answered with a fault, not 412, iff the generation moved between its load and its commit; otherwise it reports its write |
| `SpecTheorems.CreateCommits` | src/AuthzPlane.Application/Tenants/Commands/CreateTenant.cs:50-72 | a create commits iff its id and slug are free, and keeps the history exact |
| `SpecTheorems.NextKeepsInv` | src/AuthzPlane.Application/Tenants/Commands/UpdateTenantSpec.cs:50-84 | every step of every request, abort, rename or deletion keeps the history exact and takes no row back |
| `SpecTheorems.RunKeepsInv` | src/AuthzPlane.Application/Tenants/Commands/UpdateTenantSpec.cs:50-84 | over every interleaving each tenant has exactly generations 1..current, each with one spec, one outbox and one SpecUpdated row, one status and one TenantCreated row, unique slugs and honest hashes; each refusal was true when it was given: a 412 names a generation the tenant had that is not the If-Match, a conflict means a taken slug, 400 a refused spec, slug or name, 428 a missing If-Match |
| `SpecTheorems.AtMostOneWrites` | src/AuthzPlane.Infrastructure/Persistence/Configurations/TenantConfigurations.cs:57-61 | no two requests of a run report having written the same generation |
| `SpecTheorems.OneCreatePerSlug` | src/AuthzPlane.Infrastructure/Persistence/Configurations/TenantConfigurations.cs:25 | of any number of creates racing for one slug at most one is answered as created |
| `SpecTheorems.WriteIsUnraced` | src/AuthzPlane.Application/Tenants/Commands/UpdateTenantSpec.cs:60-84 | a changed answer at n had If-Match n-1, found n-1 current at commit and stored its own canonical document at n |
| `SpecTheorems.NoLostUpdate` | src/AuthzPlane.Application/Tenants/Commands/UpdateTenantSpec.cs:60-84 | the same for every write in every run, creates included |
| `SpecTheorems.LatestIsCurrent` | src/AuthzPlane.Infrastructure/Persistence/TenantRepository.cs:31-36 | the latest spec row is the one at the tenant's generation |
| `SpecTheorems.NoOpAnswer` | src/AuthzPlane.Application/Tenants/Commands/UpdateTenantSpec.cs:69-73 | a no-change answer compares with the current document; the generation it names is that document's iff none was written in between |
| `SpecTheorems.StaleNoOp` | src/AuthzPlane.Application/Tenants/Commands/UpdateTenantSpec.cs:69-73 | a run in which it names a generation that holds another document |
| `SpecTheorems.LoserRun` | src/AuthzPlane.Application/Tenants/Commands/UpdateTenantSpec.cs:60-84 | a run in which a request that loaded before another one committed is answered with a fault and writes nothing |
| `SpecTheorems.ResavedIsNoOp` | src/AuthzPlane.Application/Tenants/Commands/UpdateTenantSpec.cs:69-73 | in every run a loaded update whose document is the current one up to key order is answered as unchanged and leaves the database alone; unless the digest collides any other document goes on to the commit |
| `Idempotency.StepKeepsRows` | src/AuthzPlane.Infrastructure/Idempotency/IdempotencyStore.cs:17-30 | a stored row is never changed or removed, a finished request stays finished |
| `Idempotency.RunKeepsInv` | src/AuthzPlane.Api/Middleware/IdempotencyMiddleware.cs:58-88 | over every interleaving each row is the answer of the one execution that stored it, and every request that ran looked before its key's row was inserted or after it expired |
| `Idempotency.ReplaysAreFaithful` | src/AuthzPlane.Api/Middleware/IdempotencyMiddleware.cs:110-123 | every replay has the status, type and stored body of an earlier execution of the same request by the same actor |
| `IdempotencyReplay.LookupDecides` | src/AuthzPlane.Api/Middleware/IdempotencyMiddleware.cs:31-78 | what a lookup answers, each iff: other methods pass, a key of other than 1 to 128 characters is refused, a live row is replayed to the same request and refused to another, and without one the handler runs |
| `IdempotencyReplay.StoredAnswerIsReplayed` | src/AuthzPlane.Api/Middleware/IdempotencyMiddleware.cs:61-88 | after an answer was stored, in every continuation each lookup of that actor and key within 24 hours is replayed its status, type and body if the request is the same and refused if not; the body is the response's own, if non-empty and declared as JSON |
| `IdempotencyReplay.IsJsonMeans` | src/AuthzPlane.Api/Middleware/IdempotencyMiddleware.cs:149-151 | a type counts as JSON iff it contains those letters in any case |
| `Idempotency.TwoExecutionsRaced` | src/AuthzPlane.Api/Middleware/IdempotencyMiddleware.cs:58-88 | two executions under one unexpired key both looked before the row was stored |
| `Idempotency.NoRowMeansNotStored` | src/AuthzPlane.Infrastructure/Idempotency/IdempotencyStore.cs:17-30 | an execution that left no row had its store skipped or dropped |
| `Idempotency.ExpiredKeyAlwaysRuns` | src/AuthzPlane.Infrastructure/Idempotency/IdempotencyStore.cs:17-30 | once its row has expired a key is never replayed again, in any continuation |
| `Idempotency.RunsAgainAfterADay` | src/AuthzPlane.Infrastructure/Idempotency/IdempotencyStore.cs:9-30 | a run from the start in which the same request runs twice, a day apart, and the second answer is dropped |
| `Idempotency.IdempotencyStore.FindAsync` | src/AuthzPlane.Infrastructure/Idempotency/IdempotencyStore.cs:9-15 | the row of actor and key unless it has expired |
| `Idempotency.IdempotencyStore.StoreAsync` | src/AuthzPlane.Infrastructure/Idempotency/IdempotencyStore.cs:17-30 | the first writer wins; a collision leaves the table as it is |
| `Idempotency.Invoke` | src/AuthzPlane.Api/Middleware/IdempotencyMiddleware.cs:28-89 | one request from start to end takes the lookup step and, unless answered, the store step |
| `Backoff.DelayBand` | src/AuthzPlane.Domain/Reconciliation/BackoffPolicy.cs:45-66 | under any monotone rounding that is exact on integers up to 2^53 and keeps the end multipliers in [0.8, 1.2], every jittered delay is within a fifth of its base, ends included, in [4 s, 18 min] |
| `Backoff.DoubleRounds` | src/AuthzPlane.Domain/Reconciliation/BackoffPolicy.cs:64-65 | rounding to doubles is such a rounding |
| `Backoff.HalfOpenIff` | src/AuthzPlane.Domain/Reconciliation/BackoffPolicy.cs:63-65 | in doubles the documented half-open band holds iff the jitter is at most 1 - 2^-51, for every attempt and every double in [0,1) |
| `Binary64.DoubleInOrder` | src/AuthzPlane.Domain/Reconciliation/BackoffPolicy.cs:64-65 | rounding to the nearest double, ties to even, is monotone over all reals |
| `Backoff.BandIff` | src/AuthzPlane.Domain/Reconciliation/BackoffPolicy.cs:52-65 | among the jitters the guard accepts exactly a NaN falls out of the band |
| `Backoff.LongestIsReached` | src/AuthzPlane.Domain/Reconciliation/BackoffPolicy.cs:63-65 | the largest double below 1 is accepted and waits the full six fifths at every attempt |
| `Backoff.LaterWaitsLonger` | src/AuthzPlane.Domain/Reconciliation/BackoffPolicy.cs:25-66 | the bands of attempts 1 to 6 are disjoint and increase |
| `Lifecycle.AfterKeepsInv` | src/AuthzPlane.Domain/Tenants/TenantStatus.cs:70-136 | each call keeps what phase says about counter and retry, and leaves Deleted alone |
| `Lifecycle.EveryRun` | src/AuthzPlane.Domain/Tenants/TenantStatus.cs:70-136 | over every call sequence with accepted jitters the counter is the number of degradations since the last Ready; Ready and Pending mean zero, Failed at least 8, Degraded has a retry, a retry means Degraded or Deleting |
| `LifecycleHistory.RunIsHistory` | src/AuthzPlane.Domain/Tenants/TenantStatus.cs:70-136 | over every call sequence each of the eight fields is read off the calls that entered: generation and hash of the latest Ready, error of the latest degradation unless a Ready followed, times of the latest run and the latest transition, failures since the latest Ready, and the retry last scheduled and not cleared |
| `LifecycleHistory.GivesUpAfterEight` | src/AuthzPlane.Domain/Tenants/TenantStatus.cs:103-114 | a tenant is given up iff it is Degraded and has degraded 8 times since the latest Ready; other calls enter iff their transition is legal |
| `LifecycleHistory.RetryFallsDue` | src/AuthzPlane.Domain/Tenants/TenantStatus.cs:67-100 | after a degradation the retry is due exactly once its delay has passed |
| `LifecycleHistory.EntriesOfPhases` | src/AuthzPlane.Domain/Tenants/TenantPhase.cs:37-50 | from where each phase can be entered |
| `Lifecycle.DeletedIsFinal` | src/AuthzPlane.Domain/Tenants/TenantPhase.cs:37-50 | no call sequence leaves Deleted |
| `Lifecycle.BadJitterLosesTheRetry` | src/AuthzPlane.Domain/Tenants/TenantStatus.cs:93-100 | the failure is counted in any case; the status stays consistent iff the guard accepts the jitter, a NaN included, or a retry was already scheduled |
| `Lifecycle.DegradedWithoutRetry` | src/AuthzPlane.Domain/Tenants/TenantStatus.cs:70-100 | for every refused jitter, three calls on a new status that end Degraded with no retry scheduled |
| `Lifecycle.DisciplinedWaits` | src/AuthzPlane.Domain/Tenants/TenantStatus.cs:67-113 | at every point of a run that plans only when due, the least total wait of the failures so far has passed or is scheduled |
| `Lifecycle.BudgetTakesTime` | src/AuthzPlane.Domain/Reconciliation/BackoffPolicy.cs:45-70 | the eighth consecutive failure comes at least 1876 s after the first |
| `Lifecycle.TenantStatus.BeginPlanning` | src/AuthzPlane.Domain/Tenants/TenantStatus.cs:70-74 | succeeds iff legal and clears the retry |
| `Lifecycle.TenantStatus.MarkReady` | src/AuthzPlane.Domain/Tenants/TenantStatus.cs:78-91 | succeeds iff legal and resets counter, error and retry |
| `Lifecycle.TenantStatus.MarkDegraded` | src/AuthzPlane.Domain/Tenants/TenantStatus.cs:93-100 | the whole new status, also when the delay computation throws half way |
| `Lifecycle.TenantStatus.MarkFailed` | src/AuthzPlane.Domain/Tenants/TenantStatus.cs:103-114 | succeeds iff legal and the budget is used up |
| `Lifecycle.TenantStatus.MarkDeleted` | src/AuthzPlane.Domain/Tenants/TenantStatus.cs:118-122 | succeeds iff legal and clears the retry |
| `ReconcileRuns.RetryScript` | web/src/features/reconcile/server.ts:267-295 | the loop builds n + 2 steps: read, one per change, settle |
| `ReconcileRuns.CourseOfRetry` | web/src/features/reconcile/server.ts:152-189 | after k steps the changes are an applied prefix, one applying, the rest pending, outcomes mirror changes, duration and log follow |
| `ReconcileRuns.DurationGrows` | web/src/features/reconcile/server.ts:267-295 | the shown duration never decreases |
| `ReconcileRuns.RetryCourse` | web/src/features/reconcile/server.ts:145-264 | in every reachable store each retry is where its reads have brought it |
| `ReconcileRuns.CallsExtend` | web/src/features/reconcile/server.ts:145-264 | no sequence of reads and retries loses a run, a used key or changes a settled run |
| `ReconcileRuns.RetrySettles` | web/src/features/reconcile/server.ts:145-295 | a retry of a run with n changes is settled as Applied iff it was read at least n + 2 times, whatever calls come between |
| `ReconcileRuns.ReplayedKeyChangesNothing` | web/src/features/reconcile/server.ts:200-205 | an accepted key sent again at any later time answers the same run and creates none |
| `ReconcileRuns.RetryIsAnswered` | web/src/features/reconcile/server.ts:200-264 | a used key answers its run; failing that 404 iff the run is unknown, 409 iff it is unsettled, and otherwise a new run in its first state with all other runs unchanged |
| `ReconcileRuns.Store.AdvanceLive` | web/src/features/reconcile/server.ts:152-189 | takes the next scripted step of that run, settling as the step says, and touches no other run |
| `ReconcileRuns.Store.GetRun` | web/src/features/reconcile/server.ts:145-150 | a read moves an unsettled run on by one step and returns it |
| `ReconcileRuns.Store.RetryRun` | web/src/features/reconcile/server.ts:200-264 | replay, 404, 409 or a new run with its script and key |
| `Relations.IdsDiffer` | web/src/features/relations/server.ts:146 | different sequence numbers make different padded ids |
| `Relations.IdsArePadded` | web/src/features/relations/server.ts:146 | an id spells its number in decimal with at least four digits and no more than needed |
| `Relations.Validate` | web/src/features/relations/server.ts:110-133 | accepts iff nothing in the batch is reserved and the model defines every write; a refusal names the first reserved tuple in batch order, or failing that the first undefined write |
| `Relations.DefinedMeans` | web/src/features/relations/server.ts:121-133 | a write is defined iff the first type of its object's type name lists the relation |
| `Relations.ReservedMeans` | web/src/features/relations/server.ts:110-119 | a tuple is reserved iff object or user starts with the reserved prefix |
| `Relations.BatchTriples` | web/src/features/relations/server.ts:135-152 | the triple set becomes (old minus deletes) plus writes |
| `Relations.KeptInOrder` | web/src/features/relations/server.ts:135-140 | the rows that stay keep their order |
| `Relations.AddedInOrder` | web/src/features/relations/server.ts:142-152 | the new rows come last, in the order of the batch |
| `Relations.BatchKeepsInv` | web/src/features/relations/server.ts:135-152 | triples and ids stay unique, and ids still to come stay unused |
| `Relations.BatchCounts` | web/src/features/relations/server.ts:135-153 | rows and total change by the number of triples really deleted and really added |
| `Relations.EveryBatchKeeps` | web/src/features/relations/server.ts:110-164 | over every sequence of batches on one store total minus rows is constant, reserved triples neither come nor go, and every new triple is defined in the model |
| `RelationAccess.EveryCopyKeeps` | web/src/features/relations/server.ts:43-164 | in every interleaving of first accesses and batches each store is the seed with the batches accepted on it, and so keeps all of that |
| `RelationAccess.CallsKeepTheirStore` | web/src/features/relations/server.ts:43-68 | a batch or listing works on the store that was the entry when it looked, or that it seeded, whatever is the entry by then |
| `RelationAccess.VisibleIsBuiltByAllIff` | web/src/features/relations/server.ts:43-164 | the visible store is the seed with the batches accepted on it; these are all the accepted ones iff no seeding replaced a store on which one was accepted |
| `RelationAccess.VisibleStaysIff` | web/src/features/relations/server.ts:43-68 | after any run, every continuation that accepts no further batch leaves the visible store as it is iff no call is still seeding or it still equals the seed |
| `RelationAccess.FirstBatchIsLost` | web/src/features/relations/server.ts:43-68 | for any two acceptable first batches, a run in which both are accepted and what only the first wrote is not visible |
| `RelationSeeds.AcmeSeedMeetsInv` | web/src/features/relations/fixtures.ts:11-26 | the twelve seeded tuples have unique triples and ids below the next number |
| `RelationSeeds.GenericSeedMeetsInv` | web/src/features/relations/fixtures.ts:29-36 | so has every other tenant's seed, for any slug |
| `Relations.RepeatedBatch` | web/src/features/relations/server.ts:110-164 | sending a batch again to the same store leaves triples and total unchanged |
| `Relations.RelationStore.WriteRelations` | web/src/features/relations/server.ts:110-164 | all or nothing on the store it holds, with counts that are the sizes of the deleted and the added sets |
| `FirstAccess.EntryIsBuiltByAllIff` | web/src/features/spec/server.ts:60-74 | a lazily seeded entry is the seed with what was done to it; this is all that was ever done iff no seeding replaced a copy to which something was done, before or after |
| `SpecAccess.NextKeepsInv` | web/src/features/spec/server.ts:60-212 | every step of every save, restore and read, seedings included, keeps each copy's version list exact, each suspended or acknowledged save's version on its copy, and every recorded answer with the save that recorded it |
| `SpecAccessTheorems.CallsLookOnce` | web/src/features/spec/server.ts:60-62 | a call holds the copy that is the entry when it looks, and awaits the tenant iff there is none |
| `SpecAccessTheorems.SeedingAnswers` | web/src/features/spec/server.ts:60-74 | 404 iff the tenant is not found; otherwise the call holds a fresh copy of the seed, which becomes the entry |
| `SpecAccessTheorems.ReadsAndRestores` | web/src/features/spec/server.ts:199-207 | a read shows the copy it looked up; a restore is refused or takes body and If-Match from that copy, and its save looks again |
| `SpecAccessTheorems.RefusalsAreReported` | web/src/features/spec/server.ts:207-211 | a refused save inside a restore is answered 404 or 400, outside one as it is |
| `SpecAccessTheorems.EveryRunKeepsIff` | web/src/features/spec/server.ts:60-181 | after any run, every continuation keeps the visible versions (body, hash, author, time, summary) and final answers iff no call is still seeding or nobody has appended to the visible copy |
| `SpecAccessTheorems.OnlyHeadIsCurrent` | web/src/features/spec/fixtures.ts:164-168 | after any run, on every copy only the head is current, and of the others only the observed generation is applied |
| `SpecSeeds.AcmeSeedIsOk` | web/src/features/spec/fixtures.ts:170-185 | nine seeded versions, newest first, are a state the store starts from |
| `SpecSeeds.GenericVersions` | web/src/features/spec/fixtures.ts:232-248 | so is the list the loop builds for any other tenant, at every generation |
| `SpecAccessTheorems.VisibleIsBuiltByAllIff` | web/src/features/spec/server.ts:60-181 | the visible state is the seed with the appends and recordings on its copy; these are all that were made iff no seeding replaced a copy on which a save appended |
| `SpecAccessTheorems.SavedKeptIff` | web/src/features/spec/server.ts:60-181 | after any run, an acknowledged save under a key of its own is visible and answered iff no seeding replaced its copy |
| `SpecAccessTheorems.FirstSaveIsLost` | web/src/features/spec/server.ts:60-74 | for any two valid first saves, a run in which both are acknowledged at the same generation and only the second is there |
| `SpecAccessTheorems.RepeatReplaysIff` | web/src/features/spec/server.ts:140-144 | a repeated save replays the first answer iff it runs on the copy the first one appended to |
| `SpecAccessTheorems.RestoreCopies` | web/src/features/spec/server.ts:199-212 | a restore that appends has the body its starting copy has at the restored generation; the copy it saves to has the same there unless the first copy was replaced and the generation is not a seeded one |
| `SpecStore.CopyKeeps` | web/src/features/spec/server.ts:143-181 | over every interleaving of saves on one copy the list is generations current down to 1 with their statuses, and no existing version and no final answer changes |
| `SpecStore.SaveIsAnswered` | web/src/features/spec/server.ts:143-161 | each answer of a save with the exact condition on key, If-Match, validity and versions, in the order of the tests |
| `SpecStore.SpecMap.Seed` | web/src/features/spec/server.ts:63-73 | a fresh copy becomes the entry, whatever the entry was |
| `SpecStore.AppendsExactlyWhen` | web/src/features/spec/server.ts:143-174 | a save appends iff its key is new, its If-Match is current, its body valid and there is a version to describe the change from; then the next generation is current and has its body, hash, author, time and summary, and every earlier one stays |
| `SpecStore.ReplayedKey` | web/src/features/spec/server.ts:143-144 | on one copy a save under a finally answered key gets the first response and appends nothing, at any later time |
| `SpecStore.AnswerLastsIffFinal` | web/src/features/spec/server.ts:174-181 | a recorded response survives every continuation iff no save under its key is suspended |
| `SpecStore.SameKeyAppendsTwice` | web/src/features/spec/server.ts:143-181 | a second save under the key, carrying the first one's generation before its response is recorded, also appends |
| `SpecStore.StartsExactlyWhen` | web/src/features/spec/server.ts:202-206 | a restore is refused iff the generation does not exist (404) or is current (409) |
| `SpecStore.RepeatedRestore` | web/src/features/spec/server.ts:202-212 | on one copy a repeated restore gets the first answer and is never refused as already current |
| `SpecStore.TenantSpecs.BeginSave` | web/src/features/spec/server.ts:143-175 | replay, 428, 412, 400, a throw without an earlier version, or the appended version with statuses recomputed |
| `SpecStore.TenantSpecs.FinishSave` | web/src/features/spec/server.ts:177-181 | records the response under the key |
| `SpecStore.TenantSpecs.SaveSpec` | web/src/features/spec/server.ts:143-181 | an uninterrupted save on the copy it holds |
| `SpecStore.TenantSpecs.RestoreVersion` | web/src/features/spec/server.ts:202-212 | an uninterrupted restore on the copy it holds; a refused save answers 400 and changes nothing |

## Left out

- Splitting text into lines (CRLF, trailing newline), the label strings of the diff and negative context counts: documents are lists of lines.
- `reasonFor`, latency and cache fields of an explanation; object-prototype keys of the JavaScript maps.
- Lexing of the model language and its other issues: the summary starts from parsed types and relations.
- SHA-256 and FNV-1a: the digest is a function parameter; the escaping of names in the canonical text is left to the token level.
- Row ids of spec, outbox and audit rows, audit payloads, trimming of display names, and blank characters beyond ASCII.
- Postgres and EF Core: only atomic commit, unique indexes, primary and foreign keys and merged column updates; retries on connection faults are an aborted request.
- Binary64.DoubleInOrder: doubles of size 2^53 and more are not modelled (no value of the schedule is that large); a NaN converts to 0 ticks as on the targeted runtime.
- Idempotency.Invoke: path, method and header matching are one `mutation` flag, and body capture is the handler's response.
- Relations.RelationStore.WriteRelations: the invalidated-decision count and the model version of the answer are not modelled, and the lookup with its 404 is in `RelationAccess`; listing with cursors would only add easy members.
- ReconcileRuns.Store.AdvanceLive: phases, facts and log texts of a run are not modelled, a log line is its time.
- ReconcileRuns.Store.RetryRun: likewise without phases, facts, trace links and log texts; the drawn id is a parameter.
- SpecAccess.NextKeepsInv: one tenant, whose seed is the same whenever it is found; the validator, the diff summary and the reconcile run id are parameters.
- Interleaving of calls to the reconcile store: they do not suspend between reading and writing it.
- `ReconcileWorker`, outbox delivery, drift findings, issuer probing, spec validation rules, sessions and the user interface.
