# Vertex AI proxy: model pool, token cache and client types

This project models the core of a small Vertex AI proxy service and the client types it uses.

**The keyed generative-model pool.** Handles are pooled under a key "project:region:model".
- Each key has a FIFO queue of idle entries and a counting semaphore of `MaxPoolSize` permits.
- *Acquire:* takes one permit, drops expired entries from the front of the queue, and reuses the first live one. When there is none, it builds a new handle through the factory. The permit is given back if that throws.
- *Release:* re-derives the key from the handle, enqueues the handle while the queue is below `MaxPoolSize`, and always releases one permit. It swallows every exception, and the SemaphoreFullException of a release past the ceiling is among them.
- *Cleanup timer callback:* for each key, takes a permit as a lock and skips the key when none is free. It drains the queue, sorts the expired entries oldest first, and evicts `min(#expired, max(0, n - MinPoolSize))` of them. It puts back the live entries and then the retained expired ones. Then it releases one permit per eviction, plus one for the lock.
- *Dispose:* empties every queue.

**Pool entries.** An entry records when it was last used, and an entry is expired once it has been idle strictly longer than the timeout.

**The access-token cache.** Tokens are reused for five minutes.

**Client types:**
- the clamping token-count setters of a CountTokens response;
- validation and parameter assembly of the prompt overload of image generation;
- the constructors of message content, and the first-part `Text` property of a content response.

The model is sequential. Everything in it runs one call at a time.
- Time is an explicit tick count `now`: `DateTime` ticks, 600 000 000 per minute (`PoolOptions.TicksPerMinute`). Each operation reads the clock once. The code reads `DateTime.UtcNow` at every expiry test (src/Service/Services/GenerativeModelPool.cs:43, :101), and the cleanup callback can wait up to a second for each key's lock (:92), so later keys are judged at a later time there.
- Permits are integers in [0, MaxPoolSize]. An acquire that would wait returns `Blocked`.
- A release at the ceiling is reported, as `SemaphoreFullException` would be.
- What the factory and the credential lookup would answer is passed in as a parameter (`Option`/`Result`).
- The state of the pool is a class whose registries are a `map<string, seq<PooledModel>>` and a `map<string, int>`. Its methods update them in place.
- The cleanup callback's loop works on the values of the two registries and writes them back at the end.
- What one cleanup pass does to a queue is specified by functions on a *snapshot*: the queue with each entry's `LastUsed` stamp (`IdleQueues`).

Pool keys are modelled as the code computes them. The comment at src/Service/Services/GenerativeModelPool.cs:149 says the release side removes the "models/" prefix to match the format of `GetPoolKey`. But `GetPoolKey` itself never removes it: acquire uses the requested name verbatim, and only release (`GetPoolKeyFromModel`) strips the prefix. So a name with the prefix and the same name without it share a release key but not an acquire key. The model does what the code does:
- `PoolKeys.PrefixedAndBareNamesSplitAcquireKeys` and `PoolKeys.KeysDivergeWithPrefix` state the disagreement.
- `PoolScenarios.MismatchedKeysExhaustPermits` shows its effect: after MaxPoolSize acquire/return cycles of "models/gemini-pro", the next acquire blocks, while MaxPoolSize idle handles sit under the other key.

The cleanup callback's extra releases are also modelled as written. `PoolScenarios.CleanupOverReleaseCrashes` shows a pass that rewrites the queue and then raises SemaphoreFullException out of the callback.

## Model

| member | source | states |
|---|---|---|
| PoolKeys.NormalizeModelName | src/Service/Services/GenerativeModelPool.cs:148-152 | a name with the "models/" prefix is the prefix followed by the result; any other name is returned as it is |
| PoolKeys.GetPoolKey | src/Service/Services/GenerativeModelPool.cs:144-146 | the acquire key is as long as project, region and model together plus the two separators, starts with the project and a ':' and ends with a ':' and the requested model name, unmodified |
| PoolKeys.StripsExactlyOnePrefix | src/Service/Services/GenerativeModelPool.cs:148-152 | "models/" + m normalises to m, even when m itself starts with "models/": exactly one prefix is removed |
| PoolKeys.GetPoolKeyFromModel | src/Service/Services/GenerativeModelPool.cs:148-155 | the release key is built from the identity the handle stores and is shorter by the length of "models/" exactly when the stored name starts with it |
| PoolKeys.KeysAgreeWithoutPrefix | src/Service/Services/GenerativeModelPool.cs:144-155 | for a stored name without the prefix, the release key equals the acquire key of the same project, region and name |
| PoolKeys.KeysDivergeWithPrefix | src/Service/Services/GenerativeModelPool.cs:144-155 | for a stored name with the prefix, the release key differs from the acquire key of the same project, region and name |
| PoolKeys.PrefixedAndBareNamesShareReleaseKey | src/Service/Services/GenerativeModelPool.cs:148-155 | for any name m without the prefix, a handle storing "models/" + m and one storing m (same project and region) are released under one key, the acquire key of m |
| PoolKeys.GeminiProNamesShareReleaseKey | src/Service/Services/GenerativeModelPool.cs:148-155 | handles storing "models/gemini-pro" and "gemini-pro" are released under one key |
| PoolKeys.PrefixedAndBareNamesSplitAcquireKeys | src/Service/Services/GenerativeModelPool.cs:144-146 | acquiring "models/gemini-pro" and "gemini-pro" uses two different keys |
| PoolKeys.DistinctIdentitiesCanShareKey | src/Service/Services/GenerativeModelPool.cs:144-146 | the ':' separator is not escaped: two different (project, region) pairs can produce one key |
| PooledModels.PooledModel.constructor | src/Service/Services/PooledModel.cs:5-8 | a new entry keeps the handle and key it was given and is stamped with the creation time |
| PooledModels.PooledModel.UpdateLastUsed | src/Service/Services/PooledModel.cs:10-12 | LastUsed becomes now, Model and PoolKey cannot change, and right after the call the entry is not expired for any non-negative timeout |
| PooledModels.PooledModel.IsExpired | src/Service/Services/PooledModel.cs:14-16 | under a non-negative timeout only an entry last used strictly before now can be expired |
| PooledModels.ExpiryIsStrict | src/Service/Services/PooledModel.cs:14-16 | an entry exactly timeout old is live, one tick older it is expired |
| PooledModels.ExpiryPersists | src/Service/Services/PooledModel.cs:15 | without UpdateLastUsed an expired entry stays expired as time advances |
| AccessTokens.AccessTokenProvider.constructor | src/Service/Services/AccessTokenProvider.cs:10-11 | nothing is cached and the expiry is DateTime.MinValue, so the first call fetches |
| AccessTokens.AccessTokenProvider.GetAccessToken | src/Service/Services/AccessTokenProvider.cs:13-21 | a fetch happens exactly when the cache is empty or now >= expiry (inclusive); a fetched token is cached until now + 5 minutes; a failed fetch propagates and changes nothing; before expiry the cached token is returned unchanged; a returned token is always the cached one; the cache's new contents are the fetched token and now + 5 minutes after a successful fetch, and the old contents otherwise |
| IdleQueues.PartitionIsPermutation | src/Service/Services/GenerativeModelPool.cs:96-106 | draining a queue into its expired and live entries loses and duplicates nothing |
| IdleQueues.FirstLive | src/Service/Services/GenerativeModelPool.cs:42-44 | the position acquire stops at: every entry before it is expired and the entry there is live (or the queue is exhausted) |
| IdleQueues.FirstLiveIsFirst | src/Service/Services/GenerativeModelPool.cs:42-44 | that position is the only one with those two properties |
| IdleQueues.SortByLastUsed | src/Service/Services/GenerativeModelPool.cs:109 | the sort used for eviction: sorted oldest first and a permutation of its input |
| IdleQueues.InsertByLastUsed | src/Service/Services/GenerativeModelPool.cs:109 | inserting into an oldest-first sequence keeps it sorted and adds exactly the inserted entry |
| IdleQueues.CleanupEvictsOnlyExpired | src/Service/Services/GenerativeModelPool.cs:100-114 | every evicted entry was in the queue and is expired |
| IdleQueues.CleanupRespectsFloor | src/Service/Services/GenerativeModelPool.cs:111-115 | min(#expired, max(0, n - MinPoolSize)) entries are evicted, so at least min(n, MinPoolSize) remain |
| IdleQueues.CleanupEvictsOldestFirst | src/Service/Services/GenerativeModelPool.cs:108-115 | every evicted entry was last used no later than every retained expired entry |
| IdleQueues.CleanupLosesNothing | src/Service/Services/GenerativeModelPool.cs:96-124 | the evicted entries and the new queue together are the old queue, as a multiset |
| IdleQueues.CleanupWithoutExpiredIsIdentity | src/Service/Services/GenerativeModelPool.cs:100-106 | with no expired entry nothing is evicted and the queue keeps its content and order |
| IdleQueues.CleanedQueueIsSubQueue | src/Service/Services/GenerativeModelPool.cs:96-124 | the new queue holds only entries of the old one and is no longer |
| ModelPool.GenerativeModelPool.constructor | src/Service/Services/GenerativeModelPool.cs:15-16 | both registries start empty and the cleanup timer runs |
| ModelPool.GenerativeModelPool.GetOrAddPool | src/Service/Services/GenerativeModelPool.cs:35-36 | a new key is registered with an empty queue and MaxPoolSize permits; a known key is left as it is |
| ModelPool.GenerativeModelPool.TakePermit | src/Service/Services/GenerativeModelPool.cs:34-38 | the wait succeeds exactly when a permit is free, and then takes exactly one |
| ModelPool.GenerativeModelPool.ReleasePermit | src/Service/Services/GenerativeModelPool.cs:79 | the release adds one permit, or reports SemaphoreFullException when all are already free and leaves the count |
| ModelPool.GenerativeModelPool.FindFirstLive | src/Service/Services/GenerativeModelPool.cs:42-44 | on a queue's value: returns the first live entry (null when every entry is expired) and exactly the entries behind it |
| ModelPool.GenerativeModelPool.DequeueFirstLive | src/Service/Services/GenerativeModelPool.cs:42-45 | the dequeue loop drops the expired entries in front, stops at the first live one and returns it; the queue loses exactly the entries up to it |
| ModelPool.GenerativeModelPool.ServeFromPool | src/Service/Services/GenerativeModelPool.cs:45-48 | a reused entry is re-stamped with now and its handle gets the cached token; it fails exactly when a needed fetch fails, and then the handle keeps its old token; the token cache ends holding the fetched token and expiry after a successful fetch and its old contents otherwise |
| ModelPool.GenerativeModelPool.CreateModel | src/Service/Services/GenerativeModelPool.cs:52-56 | a miss builds a new handle with the requested project and region and the model name the factory stored; a factory failure and a token failure are each reported exactly when they occur; a factory failure leaves the token cache untouched, otherwise the cache takes the step of one token request |
| ModelPool.GenerativeModelPool.ReuseOrCreate | src/Service/Services/GenerativeModelPool.cs:40-56 | the try block: reuses the first live entry or builds a new handle; permits are untouched; each fault occurs exactly in its case; the token cache is untouched by a factory fault and otherwise takes the step of one token request; a failed fetch leaves a reused handle's token as it was |
| ModelPool.GenerativeModelPool.ServeOnPermit | src/Service/Services/GenerativeModelPool.cs:40-60 | the part of acquire run holding a permit: the queue is drained as in the try block, a success keeps the permit and a failure gives it back; the faults and the token cache as in the try block |
| ModelPool.GenerativeModelPool.GiveBackPermit | src/Service/Services/GenerativeModelPool.cs:57-59 | the catch block restores the permit taken, which cannot reach the ceiling |
| ModelPool.GenerativeModelPool.GetModel | src/Service/Services/GenerativeModelPool.cs:33-61 | blocks exactly when no permit is free, and then changes nothing; otherwise drains the queue up to and including the first live entry (everything on a miss); a success keeps the permit taken and a failure gives it back; a reused entry is stamped now and its handle is returned; a miss returns a fresh handle; each fault occurs exactly in its case; the handle carries the cached token; the token cache is untouched when acquire blocks or the factory throws, and otherwise takes the step of one token request; a failed fetch leaves a reused handle's token as it was |
| ModelPool.GenerativeModelPool.AcquireUnderKey | src/Service/Services/GenerativeModelPool.cs:34-60 | the body of acquire for a given key, with the contract of GetModel stated for that key: blocks exactly when no permit is free and then changes nothing; otherwise drains through the first live entry, keeps the permit on success and gives it back on failure; reuse or creation, each fault exactly in its case, and the token cache's step as in GetModel |
| ModelPool.GenerativeModelPool.Repool | src/Service/Services/GenerativeModelPool.cs:69-76 | below MaxPoolSize the queue gets exactly one new entry at its end, for the handle given, under the key, stamped now; a full queue is left as it is; permits never change |
| ModelPool.GenerativeModelPool.ReturnModel | src/Service/Services/GenerativeModelPool.cs:63-83 | under the key derived from the handle: a new entry stamped now is appended exactly when the queue is below MaxPoolSize, otherwise the queue is unchanged; one permit is released up to the ceiling; the error is logged exactly when all permits were already free; no other key changes |
| ModelPool.GenerativeModelPool.ReturnUnderKey | src/Service/Services/GenerativeModelPool.cs:66-79 | the body of release for a given key, with the contract of ReturnModel stated for that key: a new entry stamped now is appended exactly when the queue is below MaxPoolSize; one permit is released up to the ceiling; the error is reported exactly when all permits were already free; no other key changes |
| ModelPool.GenerativeModelPool.Drain | src/Service/Services/GenerativeModelPool.cs:96-106 | the drain loop yields the expired and the live entries, each in queue order |
| ModelPool.GenerativeModelPool.DrainAndSort | src/Service/Services/GenerativeModelPool.cs:96-109 | the live entries, and the expired entries oldest first, together as many as the queue held |
| ModelPool.GenerativeModelPool.RebuildQueue | src/Service/Services/GenerativeModelPool.cs:96-124 | the rewritten queue and the eviction count are the planned ones for the queue as the pass finds it |
| ModelPool.GenerativeModelPool.SplitIsPlan | src/Service/Services/GenerativeModelPool.cs:112-124 | Take/Skip at max(0, n - MinPoolSize) of the sorted expired entries, after the live ones, is the planned queue |
| ModelPool.GenerativeModelPool.PlanStaysInSnapshot | src/Service/Services/GenerativeModelPool.cs:96-124 | a planned queue is no longer than the old one and holds only its entries |
| ModelPool.GenerativeModelPool.PutBack | src/Service/Services/GenerativeModelPool.cs:118-124 | the two re-enqueue loops put the live entries first, then the retained expired ones, in their order |
| ModelPool.GenerativeModelPool.ReleaseAfterCleanup | src/Service/Services/GenerativeModelPool.cs:134-140 | one release per eviction and one for the lock end at min(MaxPoolSize, permits + evictions + 1); SemaphoreFullException is raised exactly when that sum passes MaxPoolSize |
| ModelPool.GenerativeModelPool.CleanupPool | src/Service/Services/GenerativeModelPool.cs:89-140 | one key's pass: skipped when no permit is free; otherwise the queue becomes the planned one and the permits and the crash are those of the releases |
| ModelPool.GenerativeModelPool.CompletePass | src/Service/Services/GenerativeModelPool.cs:117-140 | a pass that got in replaces the queue, then releases per eviction and for the lock, as one step of the sweep |
| ModelPool.GenerativeModelPool.SweepLeavesOthers | src/Service/Services/GenerativeModelPool.cs:88 | a key not yet visited keeps its queue and permits |
| ModelPool.GenerativeModelPool.SweepStopsAtCrash | src/Service/Services/GenerativeModelPool.cs:88-141 | once a pass has raised, no later key is touched: the exception leaves the callback |
| ModelPool.GenerativeModelPool.SweepSkipsLockedKey | src/Service/Services/GenerativeModelPool.cs:91-93 | a key without a free permit keeps its queue and its permits through the whole callback |
| ModelPool.GenerativeModelPool.SweepKeepsRegistries | src/Service/Services/GenerativeModelPool.cs:85-142 | the callback keeps every queue within MaxPoolSize, every entry under its own key and every permit count within [0, MaxPoolSize] |
| ModelPool.GenerativeModelPool.SweepCleansEach | src/Service/Services/GenerativeModelPool.cs:88-141 | when the callback does not raise, each visited key ends as its own pass left it, from its own queue and permits |
| ModelPool.GenerativeModelPool.OverflowCrashesSweep | src/Service/Services/GenerativeModelPool.cs:135-139 | a pass whose releases run past MaxPoolSize makes the callback raise |
| ModelPool.GenerativeModelPool.CrashHasCause | src/Service/Services/GenerativeModelPool.cs:135-139 | the callback raises only at a key whose releases run past MaxPoolSize |
| ModelPool.GenerativeModelPool.CleanupAll | src/Service/Services/GenerativeModelPool.cs:88-141 | the loop over the keys in enumeration order gives exactly the sweep of per-key passes, stopping at a SemaphoreFullException |
| ModelPool.GenerativeModelPool.CleanupNext | src/Service/Services/GenerativeModelPool.cs:88-141 | one turn of the cleanup loop: from the registries the first i passes left without a crash, the pass over the i-th key gives exactly the sweep over the first i + 1 keys |
| ModelPool.GenerativeModelPool.CleanupRegistries | src/Service/Services/GenerativeModelPool.cs:85-142 | on the registries' values: each key's plan is that of its queue at the start, the result is the sweep of the passes, and the invariant is kept |
| ModelPool.GenerativeModelPool.CleanupIdleModels | src/Service/Services/GenerativeModelPool.cs:85-142 | the registries after the callback are the sweep of per-key passes over the keys in enumeration order, each following the plan of its queue at the start; the invariant is kept |
| ModelPool.GenerativeModelPool.Dispose | src/Service/Services/GenerativeModelPool.cs:157-163 | the timer stops and every queue is empty; keys and permits stay |
| PoolScenarios.MismatchedKeysExhaustPermits | src/Service/Services/GenerativeModelPool.cs:33-83 | with the default options, MaxPoolSize cycles of acquiring and returning "models/gemini-pro" each log a SemaphoreFullException; the next acquire blocks while MaxPoolSize handles sit idle under the other key |
| PoolScenarios.CleanupOverReleaseCrashes | src/Service/Services/GenerativeModelPool.cs:85-142 | two handles returned at 0 and a cleanup at 31 minutes: one is evicted and one kept, the callback raises SemaphoreFullException, and the permits are back at MaxPoolSize |
| PoolScenarios.TwoExpiredEntriesPlan | src/Service/Services/GenerativeModelPool.cs:111-115 | with MinPoolSize 1, a queue of two expired entries plans one eviction and a queue of one |
| TokenCounts.Clamp | src/Mscc.GenerativeAI/Types/Generative/CountTokensResponse.cs:21 | the result is never negative; a negative value becomes 0; every non-negative value, Int32.MaxValue included, is kept |
| TokenCounts.ClampIsIdempotent | src/Mscc.GenerativeAI/Types/Generative/CountTokensResponse.cs:21 | clamping a clamped value changes nothing |
| TokenCounts.CountTokensResponse.constructor | src/Mscc.GenerativeAI/Types/Generative/CountTokensResponse.cs:12-13 | all counts start at 0 |
| TokenCounts.CountTokensResponse.SetTotalTokens | src/Mscc.GenerativeAI/Types/Generative/CountTokensResponse.cs:18-22 | the clamped value reads back through both TotalTokens and TokenCount; the cached count and the billable characters are unchanged |
| TokenCounts.CountTokensResponse.SetTokenCount | src/Mscc.GenerativeAI/Types/Generative/CountTokensResponse.cs:27-31 | the same shared store under the second name |
| TokenCounts.CountTokensResponse.SetCachedContentTokenCount | src/Mscc.GenerativeAI/Types/Generative/CountTokensResponse.cs:41-45 | the clamped cached count is stored and TotalTokens/TokenCount are unchanged |
| TokenCounts.SharedCountScenario | src/Mscc.GenerativeAI/Types/Generative/CountTokensResponse.cs:12-45 | Int32.MaxValue set through TokenCount reads back through both names after a negative cached count was stored as 0 |
| ImageGeneration.ToUpperInvariant | src/Mscc.GenerativeAI/ImageGenerationModel.cs:136-138 | same length; no lower-case ASCII letter is left; each lower-case letter becomes the capital of the same letter; every other character stays, so an input without lower-case letters comes back unchanged |
| ImageGeneration.ToUpperIsIdempotent | src/Mscc.GenerativeAI/ImageGenerationModel.cs:136-138 | upper-casing twice is upper-casing once |
| ImageGeneration.SafetyFilterLevelIgnoresCase | src/Mscc.GenerativeAI/ImageGenerationModel.cs:134-139 | levels differing only in letter case are accepted alike and stored alike |
| ImageGeneration.LowerCaseLevelAccepted | src/Mscc.GenerativeAI/ImageGenerationModel.cs:134-139 | "block_none" is accepted and stored as "BLOCK_NONE" |
| ImageGeneration.StoredLevelRevalidates | src/Mscc.GenerativeAI/ImageGenerationModel.cs:134-139 | a stored level validates again and is stored unchanged |
| ImageGeneration.ApplyAspectRatio | src/Mscc.GenerativeAI/ImageGenerationModel.cs:125-130 | fails with ArgumentException("aspectRatio") exactly when a non-empty ratio is not one of the five, compared exactly; a null or empty one leaves the parameters as they are |
| ImageGeneration.FillUnset | src/Mscc.GenerativeAI/ImageGenerationModel.cs:131-133 | negative prompt, guidance scale and language are filled in only where unset |
| ImageGeneration.ApplySafetyFilterLevel | src/Mscc.GenerativeAI/ImageGenerationModel.cs:134-139 | fails with ArgumentException("safetyFilterLevel") exactly when a non-empty level is unknown once upper-cased; a known one is stored upper-cased |
| ImageGeneration.ApplyFlags | src/Mscc.GenerativeAI/ImageGenerationModel.cs:140-145 | person generation only when given; enhancement and watermark always overwritten, null included |
| ImageGeneration.AssembleParameters | src/Mscc.GenerativeAI/ImageGenerationModel.cs:124-145 | succeeds exactly when both ratio and level are accepted; the ratio is checked first; every parameter of the result as each step defines it |
| ImageGeneration.ImageGenerationModel.Version | src/Mscc.GenerativeAI/ImageGenerationModel.cs:28 | V1 exactly for a Vertex AI model |
| ImageGeneration.ImageGenerationModel.Url | src/Mscc.GenerativeAI/ImageGenerationModel.cs:19-30 | the Vertex AI template exactly for a Vertex AI model, the Google AI template exactly otherwise |
| ImageGeneration.ImageGenerationModel.ForGoogleAi | src/Mscc.GenerativeAI/ImageGenerationModel.cs:39-60 | the Google AI constructors select Google AI |
| ImageGeneration.ImageGenerationModel.ForVertexAi | src/Mscc.GenerativeAI/ImageGenerationModel.cs:69-73 | the Vertex AI constructor selects Vertex AI |
| ImageGeneration.ImageGenerationModel.GenerateImagesFromRequest | src/Mscc.GenerativeAI/ImageGenerationModel.cs:82-88 | a null request fails with ArgumentNullException("request"); any other is posted unchanged to the model's version and URL |
| ImageGeneration.ImageGenerationModel.GenerateImages | src/Mscc.GenerativeAI/ImageGenerationModel.cs:114-148 | a null prompt fails with ArgumentNullException("prompt") first; then an unaccepted ratio fails with ArgumentException("aspectRatio"), and with an accepted ratio an unaccepted level fails with ArgumentException("safetyFilterLevel"); the call posts exactly when prompt, ratio and level are all accepted; the posted request carries the prompt, numberOfImages samples and every setting as validated and assembled |
| ImageGeneration.ImageGenerationModel.GenerateContent | src/Mscc.GenerativeAI/ImageGenerationModel.cs:158-162 | the prompt overload with default settings: fails exactly for a null prompt, otherwise posts a request for one sample with nothing else set |
| Contents.Content.constructor | src/Mscc.GenerativeAI/Types/Generative/Content.cs:36-39 | an empty, non-null part list |
| Contents.Content.FromText | src/Mscc.GenerativeAI/Types/Generative/Content.cs:46-50 | exactly one new part carrying the text, null included; the role is the one given, "user" by default |
| Contents.Content.FromPart | src/Mscc.GenerativeAI/Types/Generative/Content.cs:58-63 | the given part itself is the only part; the role is the one given |
| Contents.Content.FromParts | src/Mscc.GenerativeAI/Types/Generative/Content.cs:71-76 | the list is the given parts themselves, in their order; the role is the one given |
| Contents.NewContentFromPart | src/Mscc.GenerativeAI/Types/Generative/Content.cs:58-63 | fails with ArgumentNullException("part") exactly for a null part; otherwise the part itself is the only part |
| Contents.NewContentFromParts | src/Mscc.GenerativeAI/Types/Generative/Content.cs:71-76 | fails with ArgumentNullException("parts") exactly for null; otherwise the parts are the given ones in order |
| Contents.ContentResponse.constructor | src/Mscc.GenerativeAI/Types/Generative/Content.cs:120 | no parts |
| Contents.ContentResponse.FromText | src/Mscc.GenerativeAI/Types/Generative/Content.cs:128-135 | exactly one new part carrying the text, null included, and the role given |
| Contents.ContentResponse.Text | src/Mscc.GenerativeAI/Types/Generative/Content.cs:96-103 | a non-empty text read is the first part's text; "" is read exactly when there is no part or the first part's text is null or empty |
| Contents.ContentResponse.SetText | src/Mscc.GenerativeAI/Types/Generative/Content.cs:94-115 | on an empty list exactly one new part is added; otherwise the list stays and only the first part's text changes; reading Text back gives the value set, "" for null |
| Contents.ResponseTextScenario | src/Mscc.GenerativeAI/Types/Generative/Content.cs:96-135 | an empty response reads ""; a set on a response built from text replaces that text without adding a part; setting null reads back "" |

## Left out

- Concurrency: the semaphores' asynchronous waiting, the atomic get-or-add of the concurrent dictionaries, the timer's scheduling, and the race between the size check and the enqueue in release. Every operation runs alone, and acquire returns `Blocked` where the real call would wait.
- Logging: every log call. Release's logged error is the `errorLogged` result of `ModelPool.GenerativeModelPool.ReturnModel`.
- The one-second timeout of the cleanup lock: the model skips a key exactly when it has no free permit.
- Disposal of the semaphores in `Dispose`, and the ObjectDisposedException of later calls: the permit counts are kept as they are.
- `DateTime` overflow, and the `DateTime.MinValue` arithmetic of the token expiry: time is an unbounded integer tick count.
- `MaxPoolSize` below 1: the pool requires MaxPoolSize >= 1 (the semaphore constructor rejects a maximum of 0).
- `IVertexAIFactory`, `VertexAI.GenerativeModel` and the Google credential lookup: their answers are parameters. The handle (`GenerativeModel`) is reduced to the identity the pool reads and the token it writes. The factory's handle is assumed to carry the project and region it was asked for; only the model name it stores is a parameter (`created`). VertexAIFactory.cs is not part of this model.
- ModelPool.GenerativeModelPool.CleanupIdleModels: the enumeration order of the dictionary is a parameter. Keys added by a concurrent acquire during the enumeration are not modelled.
- ModelPool.GenerativeModelPool.CleanupIdleModels: the queue rewrite is specified through a snapshot of the stamps taken when the callback starts. The loop runs on the values of the registries and stores them back when it ends, also after an exception. In the real callback each rewrite is visible at once. Nothing else observes the pool during the callback, so the end state is the same.
- IdleQueues.SortByLastUsed: `List.Sort` is not stable. The model uses a stable insertion sort, so the order among expired entries with equal stamps is fixed here and unspecified in the code.
- `String.StartsWith("models/")` is culture-sensitive in .NET. The model compares ordinally.
- ImageGeneration.ToUpperInvariant: upper-cases ASCII letters only.
- The `ImageGenerationRequest(prompt, sampleCount)` constructor is not part of this model. It is assumed to set the prompt and the sample count and to leave every other parameter unset.
- The numberOfImages range 1..8 is documented but not checked by the code, and the model does not check it either.
- The members of the `ImagePromptLanguage` and `PersonGeneration` enums: they are passed through, so each is a name.
- Serialising the request, the HTTP send, the status check and deserialising the response (ImageGenerationModel.cs:87-94): a successful call ends with the `ImagePost` it would send.
- `BaseModel`, API keys and the environment defaults of the constructors: only the Vertex AI / Google AI choice is kept.
- `Part` is reduced to its nullable text; Part.cs is not part of this model.
- Null elements in a part list, and null assigned to `Content.Parts` or `ContentResponse.Parts` from outside: a Dafny `seq<Part>` cannot hold null, while the source stores a null element that a caller passes to `Content(IEnumerable<Part>)` (AddRange copies it) or adds to a list.
- Contents.ContentResponse.SetText: when the first part object also sits at a later position of the list, that position sees the new text too. The contract says every part that is a different object is unchanged.
- `PromptTokensDetails`, `CacheTokensDetails` and the debugger displays: declarations only.
