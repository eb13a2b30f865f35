# OCR service: a verified model

This project models the logic between the external calls of the OCR service in Dafny and proves
properties of it that hold for every input and every run. OCR engines, language models, Redis,
Postgres, BullMQ and the clock appear as parameters chosen freely at every call, or as maps,
sequences and sets; everything the service itself decides is spelled out.

`dafny verify dfyconfig.toml` checks the whole project.

| file | component |
|---|---|
| `Collections.dfy`, `Text.dfy`, `Documents.dfy` | sequences and stable sorting, strings, the canonical document |
| `Router.dfy` | which providers may serve a request, and in what order |
| `ExtractionCache.dfy`, `Pipeline.dfy` | cache keys; one request through the pipeline |
| `Traffic.dfy` | whole runs: overlapping requests, the async queue, cache evictions |
| `Tenants.dfy` | the tenant registry with its TTL cache, one call at a time |
| `TenantProtocol.dfy` | the same registry, several processes, calls interleaved at every database await |
| `Admins.dfy` | accounts, sessions, role guards and the last-owner guard |
| `Signing.dfy`, `Crop.dfy` | signature slots and the execution verdict; the integer crop |
| `ReadingOrder.dfy`, `Tesseract.dfy` | two-column reading order; word boxes that feed it |
| `GlmMapper.dfy`, `GlmClient.dfy` | layout responses to documents; bounded retries |
| `RateLimit.dfy`, `Tamper.dfy`, `JobErrors.dfy` | fixed-window limiter, noisy-OR scoring, error codes across the queue |

## How the model is built

Code that updates state is a class or a method with the source's own loops. Its `ensures` equate
the result and the new state with a function of the old state, and the theorems are proved about
those functions and about runs of them. `Pipeline.Service`, `Tenants.TenantRegistry`,
`Admins.AdminConsole`, `GlmClient.GlmClient` and `RateLimit.RateLimiter` are such classes;
`Traffic`, `TenantProtocol`, `Admins` and `RateLimit` also hold state machines over arbitrary event
sequences. `Traffic.SynchronousRequest` and the `TenantProtocol.Uninterrupted*` lemmas tie the
interleaved machines back to the sequential code.

Assumptions, each visible in a `requires` or in a parameter:

- Provider names in a registry are distinct, and a provider that does not fail reads the same
  content out of the same bytes (`Pipeline.Sound`, `World.read`).
- File hashes are hex strings and do not collide (`Pipeline.Sound`). Random ids and session tokens
  are never handed out twice (`Admins.Fresh`).
- Admin handlers run one after the other; their check and their write are separate awaits in the
  source. The stores are reachable for a whole request or not at all (`Admins.Event.storeUp`).
- Process clocks may be off by any constant but do not drift (`TenantProtocol.Setup.skew`). The rate
  limiter and its store share one clock, and an id's limit does not change during a run.
- Numbers are exact reals and integers. `Math.hypot` and `toLowerCase` are arbitrary functions, so
  the signing results hold for any distance and any case folding.

Where code and documentation differ, the model follows the code:

- The comments on tenant mutations (src/auth/tenants.ts:173-175) say that a process sees its own change
  at once and others converge within the TTL. Neither holds as stated. `TenantProtocol.SettledIff` says from
  which instant on a process answers as the table does: exactly if no entry of its cache, and no answer
  still to arrive, differs from the table and can be served at that instant.
  - At once: `SeesRowIff`. After its own upsert or patch only the answers matter, unless the call failed
    after it took effect, when the cache does too (`OwnWriteSeenIff`); after its own revoke the cache matters
    as well, because a revoke clears it before the row is deleted (`OwnRevokeSeenIff`).
  - Within the TTL: `ConvergesIff`. In every run it depends on nothing but the answers under way: one that
    differs from the table must arrive before the TTL is over, and now at the latest if it names a tenant.
  - Three inputs fail. A lookup answered before the change may arrive after it: `BoundIsTight` is a run in
    which a key revoked by the serving process itself, or by any other, is still served TTL + lag - 1 ms
    later, where lag is the time between the database answering a lookup and the answer being cached. A
    lookup may begin after a revoke has cleared the cache and end before the row is deleted: in
    `RevokeWindow` nothing is in flight when the row goes, and the key is served for the rest of the TTL. And
    an update may take effect although its call fails: in `AbortedWrite` the cache is not cleared, and the
    process serves the tenant it has just disabled for the rest of the TTL.
  - TTL + lag is always enough, in every process and for every kind of change: `AlwaysConverges` from the
    change on, `UnchangedIsSeen` looking back from a row that has not changed for so long.
- An empty cue string is falsy in src/functions/signing/execute.ts:97-98. So a block in which a cue occurs is
  a cue block exactly if the first cue to occur is not empty (`Signing.CueIff`); an empty cue given first
  hides all others (`Signing.EmptyCueHides`).
- The rate limiter reads the clock before its increment is executed. It counts a request exactly, in every
  run, if and only if the increment is executed before the request's window ends
  (`RateLimit.ExactIff`); in `RateLimit.LateAdmitted` a late request is admitted beyond the limit.
- Requiring one more capability filters the provider chain (`Router.RequiringMoreFilters`), except when it
  turns a text-only PDF request into another kind. `Router.PdfTextException` says for which registries and
  policies the law still holds there, `Router.FilteringCanFail` gives a registry where it does not, and with
  the shipped `pdf-text`, which reads text only, it always holds (`Router.TextOnlyProviderFilters`).
- The crop padding is meant to keep a mark from being clipped. It does exactly for pages of at least 50
  pixels along an axis, or of a single pixel (`Crop.CoversIff`).

## Model

| member | source | states |
|---|---|---|
| Router.RouteProvider | src/providers/router.ts:37-64 | both loops, with `seen`, build the chain; a decision is missing exactly when the chain is empty |
| Router.ChainCharacterised | src/providers/router.ts:18-64 | the chain is the one list holding exactly the providers that accept the file and have every required capability, preferred names first in policy order, then the rest in registry order; it has no duplicates |
| Router.ConfiguredOrder | src/providers/router.ts:67-83 | providers are tried in the order configured for the function and the kind of file, an override before the base policy, `pdf-text` first for text-only PDFs; the others follow in registry order |
| Router.DeletingProviderDeletesFromChain | src/providers/index.ts:22-28 | taking a provider out of the registry takes it out of the chain and reorders nothing |
| Router.RequiringMoreFilters | src/providers/router.ts:67-83 | one more required capability just filters the chain, unless a text-only PDF request stops being text-only |
| Router.PdfTextException | src/providers/router.ts:75-81 | in that remaining case the law holds exactly when every `pdf-text` provider that can serve the stronger request is put ahead of all others that can by policy and registry alone |
| Router.TextOnlyProviderFilters | src/providers/pdf-text.ts:19-21 | with a `pdf-text` that reads text only, the law holds for every request and every added capability |
| Router.FilteringCanFail | src/providers/router.ts:75-81 | a registry and a policy for which the law fails |
| ExtractionCache.KeyInjective | src/cache.ts:12-13 | a key tells file, provider (whatever its name) and page range apart |
| Pipeline.RecognizeWithFallback | src/pipeline.ts:225-257 | the first provider that does not fail answers, stamped with the primary when it is a fallback; otherwise all were tried and the last error is reported |
| Pipeline.AnsweredByFirst | src/pipeline.ts:225-257 | the answer is the reading of the first provider of the chain that does not fail, with the primary named when it is a fallback; nobody answers exactly if all fail, and then all are named with the last error |
| Pipeline.Service.ExtractDocument | src/pipeline.ts:195-222 | route, look up, recognise, store: the result and the whole new cache |
| Pipeline.Service.RunPipeline | src/pipeline.ts:62-171 | argument, type, extraction, page-limit and interpretation stages in order, what each failure leaves in the cache, and the whole `meta` of a response |
| Pipeline.HandedOverIff | src/pipeline.ts:76-96 | a document is handed to interpretation exactly if the arguments are valid, the file is of an accepted kind, it was read and it is within the page limit; each refusal has its one reason |
| Pipeline.PrimaryFirst | src/pipeline.ts:201-216 | the primary configured for this very function, if capable, read the document or is named as the one fallen back from |
| Pipeline.RepeatIsHit | src/pipeline.ts:208-221 | for `standard` functions a document the primary read is handed out again without a provider call, one a fallback read is not; other functions never touch the cache |
| Pipeline.HitIsPrimaryReading | src/pipeline.ts:208-220 | a hit is the routed primary's own reading of these bytes |
| Pipeline.StoreKeepsFaithful | src/pipeline.ts:218-220 | filing under the provider that ran keeps every entry what its provider reads out of one file |
| Pipeline.ExtractionSound | src/pipeline.ts:195-257 | what comes out was read by a provider that accepts the file and has every required capability; nothing comes out exactly when none does, or there is no hit and every one failed |
| Traffic.EveryRunWellServed | src/pipeline.ts:195-257 | in every run, with failures, evictions and overlap, every document handed to interpretation came from a provider that accepts the file and has every required capability, within the page limit; a cached one from the provider tried first; a refused extraction had tried every such provider |
| Traffic.OnlyStandardIsStored | src/http/routes.ts:71-83 | every cache entry and every queued job of any run comes from a posted `standard` request |
| Traffic.SensitiveIndependence | src/pipeline.ts:208-221 | noninterference: erasing all `standard` traffic, the queue and all evictions leaves every sensitive request's document and refusal unchanged, with an empty cache |
| Traffic.CacheRefinesNoCache | src/pipeline.ts:195-222 | every run with the cache matches a run that never stores, but for duration, `fellBackFrom` and the `cached` flag |
| Traffic.SynchronousRequest | src/http/routes.ts:85-91 | a request nothing overlaps does in the run machine exactly what the pipeline does |
| Traffic.QueuedIff | src/http/routes.ts:68-83 | a posted request is queued exactly if its function is `standard` and its file is larger or longer than the thresholds; it is refused if the queue does not take it |
| Traffic.MalformedRefused | src/http/routes.ts:61-66 | malformed JSON arguments are refused before anything else |
| Traffic.WorkedRequest | src/http/routes.ts:72-83 | the worker takes the oldest job and does with it exactly what the pipeline does |
| Traffic.EvictedIsReread | src/pipeline.ts:211-216 | a request whose cache entry is lost before it looks goes to the providers |
| Tenants.TenantRegistry.ResolveTenant | src/auth/tenants.ts:85-99 | answer and new cache of a lookup: fresh hit, database down, unknown, found |
| Tenants.TenantRegistry.PutTenant | src/auth/tenants.ts:113-146 | upsert, then the cache entry is dropped; nothing changes if the database is down |
| Tenants.TenantRegistry.UpdateTenantByHash | src/auth/tenants.ts:192-228 | per-column merge, then the cache entry is dropped |
| Tenants.TenantRegistry.RevokeByHash | src/auth/tenants.ts:231-237 | the cache entry goes first, then the row, with the number removed |
| Tenants.TenantRegistry.RevokeApiKey | src/auth/tenants.ts:149-156 | the same, by raw key |
| Tenants.CacheTransparent | src/auth/tenants.ts:85-237 | in every sequential run, whatever the clock does, replies and table are those of a registry without a cache; an outage is reported or, for a lookup, bridged truthfully |
| Tenants.ServedIsStored | src/auth/tenants.ts:85-99 | at every reachable state a served tenant is the stored row filtered on `disabled` |
| Tenants.PutThenResolve | src/auth/tenants.ts:60-68 | what was provisioned is what the key resolves to, field by field, after any calls that do not write its row |
| Tenants.PatchThenResolve | src/auth/tenants.ts:192-228 | a patched tenant, each field from the patch where it gives one and from the old row elsewhere, is what the update replies and what the key resolves to, after any calls that do not write its row |
| Tenants.RevokeThenResolve | src/auth/tenants.ts:149-156 | a revoked key stays refused until provisioned again, whatever patches arrive |
| Tenants.CachedForTtl | src/auth/tenants.ts:88-98 | what a lookup found is answered again without the database for exactly one TTL |
| TenantProtocol.StalenessBounded | src/auth/tenants.ts:85-99 | every answer any process gives, a refusal as much as a tenant, is what the table said less than TTL + lag ago |
| TenantProtocol.RevokedIsRefused | src/auth/tenants.ts:148-156 | a key revoked or disabled for TTL + lag is refused by every process |
| TenantProtocol.BoundIsTight | src/auth/tenants.ts:231-237 | the bound cannot be lowered by a millisecond, whether the serving process or another one revokes |
| TenantProtocol.SettledIff | src/auth/tenants.ts:85-99 | a process answers as the table says from a given instant on, in every continuation that leaves the row alone, exactly if no cache entry and no answer still to arrive differs from the table and can be served then |
| TenantProtocol.SeesRowIff | src/auth/tenants.ts:172-175 | a process goes on to answer as the table says, in every continuation that leaves the row alone, exactly if neither its cache nor an answer still to arrive differs from the table now |
| TenantProtocol.OwnWriteSeenIff | src/auth/tenants.ts:192-217 | a process sees its own upsert or patch at once exactly if no lookup still to arrive was answered with another row, and, when the call failed after it took effect, no fresh cache entry holds another row |
| TenantProtocol.OwnRevokeSeenIff | src/auth/tenants.ts:231-237 | a process refuses a key it revoked at once exactly if, when the row is deleted, neither its cache nor an answer still to arrive holds the tenant |
| TenantProtocol.RestartedSeesRow | src/auth/tenants.ts:173-175 | a restarted process sees every change at once |
| TenantProtocol.RevokeWindow | src/auth/tenants.ts:231-233 | a revoked key can be served for a whole TTL with nothing in flight when its row is deleted |
| TenantProtocol.AbortedWrite | src/auth/tenants.ts:197-217 | a tenant disabled by a call that failed after it took effect can be served for a whole TTL by the same process |
| TenantProtocol.ConvergesIff | src/auth/tenants.ts:173-175 | in every run a process has converged a TTL after any state exactly if every answer under way that differs from the table arrives before then, and now at the latest if it is a tenant |
| TenantProtocol.AlwaysConverges | src/auth/tenants.ts:173-175 | TTL + lag after any state of any run, every process answers as the table, on new, changed, enabled, disabled and removed rows alike |
| TenantProtocol.UnchangedIsSeen | src/auth/tenants.ts:173-175 | once the table has said the same for TTL + lag, every process answers with it and goes on to |
| TenantProtocol.UninterruptedResolve | src/auth/tenants.ts:85-99 | the split lookup, run without interruption, is the sequential lookup |
| TenantProtocol.UninterruptedPut | src/auth/tenants.ts:113-138 | likewise for an upsert |
| TenantProtocol.UninterruptedUpdate | src/auth/tenants.ts:192-228 | likewise for a patch, of a known key or an unknown one |
| TenantProtocol.UninterruptedRevoke | src/auth/tenants.ts:231-237 | likewise for a revoke |
| Admins.AdminConsole.EnsureBootstrapAdmin | src/auth/admins.ts:141-161 | seeds an owner exactly when the registry is empty |
| Admins.AdminConsole.SignIn | src/http/admin/routes.ts:103-135 | a session is created only for an enabled account with a matching password; 400 for an invalid body, 503 when the store is unreachable, else 401 |
| Admins.AdminConsole.SignOut | src/http/admin/routes.ts:137-146 | a signed-in caller's session is destroyed |
| Admins.AdminConsole.Authenticate | src/auth/admin-session.ts:40-48 | the caller is the session's account if it still exists and is enabled, with its current role |
| Admins.AdminConsole.Admit | src/http/middleware/admin-auth.ts:45-79 | 401 without a caller, 503 when the session store is unreachable, 403 below the minimum role |
| Admins.AdminConsole.PostAdmin | src/http/admin/routes.ts:186-203 | whole new state and response of creating an account, including 400 and 409 |
| Admins.AdminConsole.PatchAdmin | src/http/admin/routes.ts:205-233 | whole new state and response of updating an account, including the last-owner refusal |
| Admins.AdminConsole.RemoveAdmin | src/http/admin/routes.ts:235-253 | whole new state and response of deleting an account, including the last-owner refusal |
| Admins.AdminConsole.PostTenant | src/http/admin/routes.ts:282-298 | manager or above creates a tenant |
| Admins.AdminConsole.PatchTenant | src/http/admin/routes.ts:300-317 | manager or above merges a patch onto an existing tenant |
| Admins.AdminConsole.RemoveTenant | src/http/admin/routes.ts:319-331 | manager or above removes an existing tenant |
| Admins.StepKeepsInv | src/auth/admins.ts:83-106 | addresses stay unique across accounts; ids and tokens stay accounted for |
| Admins.OwnerAlwaysRemains | src/http/admin/routes.ts:205-253 | once there is an active owner, or a boot has seeded one, there is one after every run of requests and boots, so a later boot changes nothing |
| Admins.SoleOwnerKept | src/http/admin/routes.ts:222-249 | the only active owner is not demoted, disabled or deleted |
| Admins.OwnerSeeded | src/auth/admins.ts:141-161 | a boot on an empty registry leaves one account, an enabled owner with the configured address, name and password |
| Admins.LetThroughIff | src/http/middleware/admin-auth.ts:45-79 | who is refused and with what status: no live session, an unreachable store, a non-owner on account routes, a viewer on tenant routes, and nobody else |
| Admins.AccountCreated | src/http/admin/routes.ts:186-203 | an accepted POST adds exactly the account asked for, enabled, under the minted id; a valid one by an owner is accepted exactly if the address is free, else a conflict |
| Admins.AccountUpdated | src/http/admin/routes.ts:205-233 | an accepted PATCH merges the given fields into the one account; one by an owner meets the last-owner refusal exactly if it demotes or disables an owner and at most one is active |
| Admins.AccountDeleted | src/http/admin/routes.ts:235-253 | an accepted DELETE removes exactly that account; one by an owner meets the last-owner refusal exactly if it names an owner and at most one is active |
| Admins.TenantWritten | src/http/admin/routes.ts:282-331 | the one row an accepted tenant request writes, field by field |
| Admins.SessionOpened | src/http/admin/routes.ts:103-135 | a sign-in succeeds exactly for the enabled account of that address with a matching password and opens a session for the configured time |
| Admins.EveryMutationAuthorised | src/http/middleware/admin-auth.ts:45-79 | every accepted mutation, whenever its token was issued, is by the token's account, which at that step exists, is enabled and is an owner, or for tenants at least a manager |
| Admins.NoCookieNoMutation | src/http/middleware/admin-auth.ts:45-57 | a login, or a request without a live session, changes no account and no tenant |
| Admins.TokenKeepsHolder | src/auth/admin-session.ts:28-33 | a token names the account it was issued to for as long as it works |
| Admins.DeletedNeverMutates | src/auth/admin-session.ts:40-48 | no token of a deleted account changes anything in the rest of the run |
| Admins.SignedOutNeverReturns | src/auth/admin-session.ts:50-53 | after a sign-out its token is refused and changes nothing in the rest of the run |
| Admins.OneAccountTouched | src/auth/admins.ts:175-203 | a request touches only the account it names and never its address; the password changes only on a reset |
| Admins.AddressNeverChanges | src/auth/admins.ts:175-203 | an id means one address in every run |
| Signing.MatchCueFirst | src/functions/signing/execute.ts:123-129 | the cue found is the first of the caller's that occurs; none found means none occurs |
| Signing.ContainsIff | src/functions/signing/execute.ts:126 | a cue occurs exactly if the content is some text, the cue and some text |
| Signing.CueIff | src/functions/signing/execute.ts:95-98 | a block is a cue block exactly if it is placed, is no image and the first cue to occur in it is not empty; that cue is its label |
| Signing.EmptyCueHides | src/functions/signing/execute.ts:97-98 | an empty cue given first leaves no block a cue block |
| Signing.NearestImage | src/functions/signing/execute.ts:132-148 | the loop over the best distance so far computes `Nearest` |
| Signing.NearestCorrect | src/functions/signing/execute.ts:131-148 | the result is an image on the same page whose middle is at most a quarter away, none nearer and none as near later; no result means no such image |
| Signing.CorrelateSlots | src/functions/signing/execute.ts:90-120 | the loop with its map by image index builds the slots, matched ones in order of first cue, then orphans |
| Signing.SlotsExact | src/functions/signing/execute.ts:85-120 | exactly one slot per correlated image and one orphan slot per uncorrelated cue; a slot has its image's box, the first of its cues as label, and the text of all of them, cut to 800, as context |
| Signing.SlotsGrow | src/functions/signing/execute.ts:92-119 | slots stand in the order of their first cues: reading on adds slots at the end and changes nothing of the old ones but the context |
| Signing.RasterizePages | src/functions/signing/execute.ts:171-190 | the early exit loses no needed page that exists; it throws exactly when the stream breaks off before the last needed page |
| Signing.ExecuteSigning | src/functions/signing/execute.ts:38-76 | slots, rendering and judging give the specified report, or none if the rasterizer, a crop or a vision call throws |
| Signing.ReportExact | src/functions/signing/execute.ts:38-76 | one reported block per slot: as judged where an image lies on a page the file has, unsigned everywhere else and in a geometry-only probe |
| Signing.ThrowsIff | src/functions/signing/execute.ts:47-73 | there is no report exactly if the rasterizer breaks off before a page with a correlated image, or a crop or a vision call on a slot throws |
| Signing.FullyExecutedIff | src/functions/signing/execute.ts:38-148 | fully executed exactly when there is a cue block and every cue block's nearest image lies on a page the file has and was judged signed |
| Signing.ProbeNeverExecuted | src/functions/signing/execute.ts:41-45 | the geometry-only probe reports every slot and never an executed document |
| Signing.ReportConsistent | src/functions/signing/execute.ts:79-83 | fully executed exactly when there are slots and none is listed unsigned |
| Signing.UnsignedExact | src/functions/signing/execute.ts:82 | the unsigned list holds the labels of the unsigned slots, in order |
| Crop.CropInsideImage | src/functions/signing/execute.ts:193-209 | for any box the crop is non-empty and inside the image; it fails exactly where there is no image |
| Crop.CropContainsBox | src/functions/signing/execute.ts:199-207 | on a page of at least 50 pixels each way an ordered box lies wholly inside its crop |
| Crop.CropTight | src/functions/signing/execute.ts:199-207 | the crop exceeds an ordered box by the padding and less than a pixel more |
| Crop.CoversIff | src/functions/signing/execute.ts:199-207 | along one axis every ordered interval is covered exactly from 50 pixels on, or on one pixel |
| ReadingOrder.DetectGutter | src/functions/resume-parsing/execute.ts:64-77 | the loop over widest gap and gutter computes `Gutter` |
| ReadingOrder.GutterCharacterised | src/functions/resume-parsing/execute.ts:60-77 | a gutter is the middle of the first of the widest central gaps, at least 0.15 wide; none exactly when no central gap is that wide |
| ReadingOrder.GutterSeparates | src/functions/resume-parsing/execute.ts:60-77 | no centre lies within 0.075 of a gutter, one lies on either side; blocks that start right of it are centred right of it, and some block starts left of it |
| ReadingOrder.PageGutterIff | src/functions/resume-parsing/execute.ts:60-77 | the gutter of a page runs through the middle of the leftmost of the widest gaps, at least 0.15 wide, between neighbouring box middles around the page's centre; there is none exactly if the boxes have no such gap |
| ReadingOrder.ReadingOrderColumnMajor | src/functions/resume-parsing/execute.ts:35-58 | the result holds each block with a box and text as often as the document: pages ascending, on each page no block that starts right of the gutter before one that starts left of it, and on either side, or without a gutter, top to bottom |
| ReadingOrder.ReadingOrderStable | src/functions/resume-parsing/execute.ts:47-58 | within a page blocks of equal rank keep their order |
| ReadingOrder.TextSpellsReconstruction | src/functions/resume-parsing/execute.ts:35-58 | the text returned holds the trimmed contents of exactly those blocks in exactly that order, a line each, with a blank line between pages |
| Text.TrimCuts | src/functions/resume-parsing/execute.ts:56 | trimming cuts off white space on either side and nothing else |
| ReadingOrder.FallsBackIff | src/functions/resume-parsing/execute.ts:16-44 | the model reads the reconstructed text if any block has both a box and text, else the provider's markdown; the final trim removes nothing |
| Collections.StableSortUnique | src/functions/resume-parsing/execute.ts:54-55 | sortedness and stability leave one possible order |
| Tesseract.PageDimensions | src/providers/tesseract.ts:76-84 | the least page size, at least 1 by 1, that reaches every box end |
| Tesseract.PageBlocks | src/providers/tesseract.ts:41-51 | one text block per word, normalised by that size, indices consecutive |
| Tesseract.WordPlaced | src/providers/tesseract.ts:43-91 | a word's block has its text and, scaled by the page size, its box |
| Tesseract.BlocksReadable | src/providers/tesseract.ts:86-91 | well-formed word boxes give blocks that meet the preconditions of reading order |
| GlmMapper.ToBlocks | src/providers/glm/mapper.ts:65-81 | the nested loops with the running index build the response's blocks |
| GlmMapper.ToPages | src/providers/glm/mapper.ts:88-103 | pages numbered from the offset, markdown on the first, sizes where given |
| GlmMapper.MapLayoutParsing | src/providers/glm/mapper.ts:22-62 | offsets, tokens and the in-place re-indexing give the specified document |
| GlmMapper.ConcatenationLaw | src/providers/glm/mapper.ts:22-62 | mapping a then b appends b's pages, blocks, tokens and markdown to a's, shifted by a's page and block counts |
| GlmMapper.OneResponse | src/providers/glm/mapper.ts:65-103 | what one response maps to: pages, sizes, markdown, tokens, and for every region a block with its label, box, text, page and index |
| GlmMapper.FinalTrimIsNoOp | src/providers/glm/mapper.ts:45-49 | the final trim removes nothing |
| GlmMapper.DocumentNumbering | src/providers/glm/mapper.ts:39-43 | pages are 1..n, indices 0..m-1, every block is on one of the pages, so signature images have distinct indices |
| GlmClient.GlmClient.LayoutParsing | src/providers/glm/client.ts:66-113 | succeeds exactly when an allowed attempt is ok and all earlier ones were retryable and uninterrupted; at most maxRetries + 1 calls, one wait between calls, waiting at most maxRetries × 8000 ms in all |
| GlmClient.SucceedsIff | src/providers/glm/client.ts:72-113 | the outcome of the first attempt that stops the loop is a success exactly in that case |
| GlmClient.BackoffBounds | src/providers/glm/client.ts:117-125 | a wait lies in [0, 8000]; with jitter evenly between half and all of its ceiling; a usable header is honoured up to the cap and cut to it above |
| GlmClient.CeilingDoubles | src/providers/glm/client.ts:122 | the ceiling starts at 500 ms and doubles per attempt up to 8000, reached at the fifth |
| GlmClient.TotalWait | src/providers/glm/client.ts:94-106 | n waits take at most n times 8000 ms |
| RateLimit.RateLimiter.UnderLimit | src/http/middleware/rate-limit.ts:43-54 | the bucket comes from the clock read before, the count after INCR decides, and the first hit of a bucket sets its expiry |
| RateLimit.RunCounts | src/http/middleware/rate-limit.ts:48-52 | a bucket's key never expires inside its own window, so it holds the number of its requests |
| RateLimit.WindowOf | src/http/middleware/rate-limit.ts:44-46 | windows follow each other from the epoch, each as many seconds long as configured |
| RateLimit.AdmittedIff | src/http/middleware/rate-limit.ts:43-54 | in any run, of one id's requests in one window that are counted before the window ends exactly the first `limit` are admitted |
| RateLimit.ExactIff | src/http/middleware/rate-limit.ts:45-53 | a request is admitted if and only if fewer than `limit` of its window came before, in every run, exactly if its increment is executed before the window ends or the limit admits nothing |
| RateLimit.LateAdmitted | src/http/middleware/rate-limit.ts:45-49 | a request counted after its window has ended is admitted beyond the limit |
| RateLimit.WindowAdmits | src/http/middleware/rate-limit.ts:43-54 | while a window lasts, of n requests min(n, limit) have been admitted |
| RateLimit.BurstBound | src/http/middleware/rate-limit.ts:42-54 | a stretch as long as the window admits at most twice the limit of requests counted before their window ends |
| RateLimit.BurstBoundReached | src/http/middleware/rate-limit.ts:45 | twice the limit can pass within two milliseconds, across a window boundary |
| Tamper.ScoreInUnit | src/authenticity/signals.ts:16-19 | the score is in [0, 1], and 0 exactly when all signals are `info` |
| Tamper.ScoreIsNoisyOr | src/authenticity/signals.ts:16-19 | the score is one minus 0.85, 0.6 and 0.2 to the numbers of low, medium and high signals, to the nearest thousandth |
| Tamper.VerdictIff | src/authenticity/signals.ts:25-46 | likely doctored exactly with a high signal, suspicious without one exactly with a medium signal or a score of 0.35, inconclusive exactly where nothing can analyse the file |
| Tamper.ReportIgnoresOrder | src/authenticity/signals.ts:16-46 | score and verdict depend only on how many signals there are of each severity |
| Tamper.MoreSignalsMoreSuspicion | src/authenticity/signals.ts:16-46 | inserting a signal anywhere never lowers the score or softens the verdict |
| Tamper.WeakSuspiciousIff | src/authenticity/signals.ts:25-29 | `info` and `low` signals alone are suspicious exactly from the third `low` on |
| JobErrors.MatchIff | src/jobs/queue.ts:64 | the expression matches exactly the strings `WORD: rest`, each in one way |
| JobErrors.RoundTrip | src/jobs/queue.ts:55-69 | decoding an encoded error returns the same code and message |
| JobErrors.DecodeFaithful | src/jobs/queue.ts:62-69 | any reason decodes to a pair that prints back to it, or is kept whole when nothing printable gives it; a missing one reads as a failed job |

## Left out

- Express wiring, uploads, sniffing, metrics, tracing, logging, usage counters and the admin UI: no decision the properties depend on.
- Interpretation, prompts, schema validation and receipt reconciliation: interpretation is a parameter of `Pipeline.Service.RunPipeline`.
- The `extract` cache-warming entry point, which skips the accepted-type check: same extraction stage.
- Interleaving inside the admin PATCH and DELETE handlers: their owner count is checked before a separate write, so `Admins.OwnerAlwaysRemains` is claimed for handlers that run one after the other.
- The provisioning command line, whose admin delete has no last-owner guard: not a step of the console.
- A store outage that begins in the middle of an admin request: the handlers answer 500, or 409 when creating an account.
- Account timestamps, listings and read-only admin routes: they change nothing.
- Time-outs of the cache store: an entry of the extraction cache may vanish at any moment (`Traffic.Event.Evict`).
- Agreement of `fellBackFrom` on cache hits: a document cached by one function's fallback keeps that mark for another.
- Failing open when the rate limiter's store is unreachable: one branch around `RateLimit.RateLimiter.UnderLimit`.
- UTF-16: strings are sequences of characters, so `slice` and lengths differ on characters outside the basic plane.
- Floating-point rounding in geometry, scores and waits: exact reals are used.
- Signing.NearestImage: takes the distance function as a parameter, because the results hold for any distance; `Math.hypot` itself is not modelled.
