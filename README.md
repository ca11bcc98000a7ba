# GitHub autocomplete search engine, modelled in Dafny

This project models the logic behind the GitHub autocomplete box of
janszarwaryn/github-autocomplete, a React and TypeScript application. It
then proves properties of that model. The modules follow the source files:

| module | file | what it models |
|---|---|---|
| `RateLimit` | `rate_limit.dfy` | The process-wide rate-limit tracker of `src/services/rateLimitService.ts`. It holds the snapshot `{limit, remaining, reset, resetTimeString, isSearchAPI, exceeded}` and the separate `isRateLimitExceeded` latch. It covers merging updates, the per-response count, the 1-second automatic reset, manual reset, persistence in the key-value store, loading at start-up, and the subscriber registry with its disposer. |
| `Cache` | `cache.dfy` | The 24-hour result cache and the static fallback catalogue of `src/utils/cacheUtils.ts`. |
| `GitHubApi` | `github_api.dfy` | `src/services/githubApi.ts`. This covers the token and headers, the guarded user and repository searches and their error paths, and `searchGitHub`: its merge of repositories, owners and direct users into at most 50 items, and its fallback. |
| `SearchHook` | `search_hook.dfy` | `src/hooks/useGitHubSearch.ts`: the reducer, the input handler and `performSearch`. |
| `KeyboardNavigation` | `keyboard_navigation.dfy` | The handlers of `src/hooks/useKeyboardNavigation.ts`. |
| `Autocomplete` | `autocomplete.dfy` | The handlers of `src/components/GitHubAutocomplete/index.tsx` over the search state, and `activeDescendant`. |
| `Debounce` | `debounce.dfy` | `src/hooks/useDebounce.ts`, as an event machine over an explicit clock. |
| `TypingAwareDebounce` | `typing_aware_debounce.dfy` | `src/hooks/useTypingAwareDebounce.ts`, as an event machine over an explicit clock. |
| `Highlight` | `highlight.dfy` | `src/utils/highlightText.tsx`: escaping the query, splitting around case-insensitive occurrences, and marking the pieces. |
| `Countdown` | `countdown.dfy` | `src/components/GitHubAutocomplete/ResetCountdownTimer.tsx`: the clamped countdown, the colour bands and the `m:ss` format. |

These modules are shared:

- `Wrappers` holds `Option` and `Result`.
- `Strings` holds the string primitives: ASCII `toLowerCase`, `startsWith`, `includes`, `trim`, `toString`, `padStart`.
- `Types` holds the records of `src/components/GitHubAutocomplete/types.ts`.
- `Storage` models `localStorage` as class `Store`. It has a `map<string, string>` and an `available` flag; every access fails while the flag is false.
- `Codec` stands in for `JSON.stringify`/`JSON.parse`. It is a self-delimiting encoding with a partial decoder, proved to round-trip.

The modules are written as follows:

- **Imperative code becomes classes.**
  - The tracker, the search client, the store and the three timer components are classes whose methods update their fields.
  - Each method is proved to move the state as a pure function of the old state says. For example, `RateLimitTracker.UpdateRateLimitInfo` ensures `CurrentQuota() == Updated(old(CurrentQuota()), u)`.
  - The lemmas state their properties about those pure functions.
- **The loops stay loops.** These are `notifySubscribers`, `indexOf`, the two `forEach` loops of `searchGitHub` and the two loops of `clearCache`.
- **Pure code becomes functions and lemmas.** This covers the reducer, the keyboard handlers, `highlightText` and the formatting.
- **Outside inputs become parameters.**
  - The network becomes a `Fetch` value per request: a network failure, or a reply with status, headers and body.
  - The clock becomes a millisecond parameter.
  - Timers become explicit fire events.

## Model

| member | source | states |
|---|---|---|
| Strings.Lower | src/utils/highlightText.tsx:36 | Lower-casing keeps the length and maps every character through ASCII lower-casing, position by position. |
| Strings.LowerIdempotent | src/services/rateLimitService.ts:170 | Lower-casing twice is lower-casing once. |
| Strings.ContainsIff | src/services/rateLimitService.ts:171-173 | `includes` holds exactly when the needle occurs at some position, in both directions. |
| Strings.ContainsInfix | src/services/rateLimitService.ts:171-173 | A string includes every one of its infixes. |
| Strings.Trim | src/hooks/useGitHubSearch.ts:132 | The trimmed text is the slice of the input left after removing a prefix and a suffix that are all white space. It neither starts nor ends with white space, and a text without white space is kept whole. |
| Strings.TrimIdempotent | src/services/githubApi.ts:147 | Trimming an already trimmed query changes nothing. |
| Strings.NatToString | src/components/GitHubAutocomplete/ResetCountdownTimer.tsx:52 | The decimal rendering is a non-empty run of digits, with more than one digit exactly from 10 on. |
| Strings.ParseNatToString | src/components/GitHubAutocomplete/ResetCountdownTimer.tsx:52 | Reading a rendered number back gives the number. |
| Strings.PadStart2 | src/components/GitHubAutocomplete/ResetCountdownTimer.tsx:52 | `padStart(2, '0')` keeps a text of two or more characters, and otherwise prefixes zeros up to length 2. |
| Storage.Store.GetItem | src/utils/cacheUtils.ts:38 | A value is read exactly when the store is available and holds the key. |
| Storage.Store.SetItem | src/utils/cacheUtils.ts:23 | The write succeeds exactly when the store is available, and then only that key changes. |
| Storage.Store.RemoveItem | src/utils/cacheUtils.ts:50 | An available store loses the key, and nothing else changes. |
| Codec.DecodeIntRoundTrip | src/services/rateLimitService.ts:35-49 | A number written into a record reads back as the same number, sign included, and leaves the rest of the text. |
| Codec.DecodeStringRoundTrip | src/services/rateLimitService.ts:35-49 | A string written into a record reads back unchanged. |
| Codec.DecodeBoolRoundTrip | src/services/rateLimitService.ts:35-49 | A boolean written into a record reads back unchanged. |
| Codec.DecodeOptStringRoundTrip | src/utils/cacheUtils.ts:23-44 | An optional description reads back unchanged, whether absent or present. |
| Codec.DecodeItemRoundTrip | src/utils/cacheUtils.ts:23-44 | Every field of a stored result item reads back unchanged. |
| Codec.DecodeItemsRoundTrip | src/utils/cacheUtils.ts:23-44 | A stored list of result items reads back as the same list, in order. |
| Codec.DecodeItemListRoundTrip | src/utils/cacheUtils.ts:23-44 | A length-prefixed list of items reads back as the same list. |
| Codec.ParseSerializedCacheItem | src/utils/cacheUtils.ts:18-44 | Parsing a stored cache entry gives back the entry that was stored: both its timestamp and its results. |
| Codec.ParseRejectsMalformed | src/utils/cacheUtils.ts:44-58 | Empty text, and text that does not start with a number, do not parse. |
| RateLimit.Merge | src/services/rateLimitService.ts:153-157 | Exactly the fields the update carries are overwritten; every other field keeps its value, and an empty update changes nothing. |
| RateLimit.MergeIdempotent | src/services/rateLimitService.ts:153-157 | Applying the same update twice is applying it once. |
| RateLimit.Updated | src/services/rateLimitService.ts:153-162 | An update is the merge. When it carries `remaining <= 0`, the flag and the latch are also set, so the tracker reads as exceeded. An update never clears a set latch. |
| RateLimit.AfterResponse | src/services/rateLimitService.ts:191-233 | `isSearchAPI` tells whether the URL contains `/search/`, and `exceeded` tells whether `remaining <= 0`. Without the three headers, `remaining` becomes `max(0, remaining - 1)`: it is never negative, drops by exactly one while positive, and `limit`, `reset` and the time string are kept. With all three headers, `limit`, `reset` and the time string are adopted, and `remaining` is the minimum of the local decrement and the header, so it exceeds neither. |
| RateLimit.HeaderlessCountdown | src/services/rateLimitService.ts:193-231 | After `n` responses without headers, `remaining` is `max(0, remaining - n)` and `limit` is unchanged. Once `n` reaches the count, the tracker is flagged and latched; a set latch stays set. |
| RateLimit.DefaultQuotaExhaustion | src/services/rateLimitService.ts:23-30 | From the default snapshot (limit 10), five responses without headers leave 5 and the tracker is not exceeded. Ten reach 0 and the tracker is exceeded; an eleventh stays at 0. |
| RateLimit.AfterManualReset | src/services/rateLimitService.ts:246-256 | The latch and the flag are cleared and `remaining` is untouched, so the tracker is still exceeded exactly when `remaining <= 0`. |
| RateLimit.AfterSetExceeded | src/services/rateLimitService.ts:177-188 | `true` sets the latch, the flag and `remaining = 0`. `false` is the manual reset. Afterwards the tracker is exceeded exactly when the argument was true or `remaining <= 0`. |
| RateLimit.AfterCheck | src/services/rateLimitService.ts:69-97 | The check changes nothing unless the latch is set and `0 < reset <= now`. In that case the latch and flag are cleared, `remaining` becomes `limit` and `reset` becomes 0, and the other fields are kept. |
| RateLimit.AutomaticReset | src/services/rateLimitService.ts:69-97 | With the latch set and reset time `T`, a check before `T` changes nothing and the tracker stays exceeded. From `T` on, the check clears it exactly when the restored limit is positive. |
| RateLimit.RateLimitErrorIgnoresCase | src/services/rateLimitService.ts:169-174 | Classifying a message as a rate-limit error does not depend on its letter case. |
| RateLimit.RateLimitPhraseClassifies | src/services/rateLimitService.ts:169-174 | Every message containing "rate limit" is a rate-limit error. |
| RateLimit.ExceededPhraseClassifies | src/services/rateLimitService.ts:169-174 | Every message containing "rate limit exceeded" is a rate-limit error. |
| RateLimit.RateLimitMessagesClassify | src/services/githubApi.ts:43-46 | The blocked-request message, and the message the provider sends when the quota is used up, are both rate-limit errors. |
| RateLimit.ParseEncodedInfo | src/services/rateLimitService.ts:35-49 | A saved snapshot parses back as exactly that snapshot. |
| RateLimit.PersistTouchesOnlyTrackerKeys | src/services/rateLimitService.ts:33-40 | Saving and purging change no key of the store other than the two tracker keys. |
| RateLimit.FollowsPersist | src/services/rateLimitService.ts:164 | A store holding the original or the latest saved state still does so after one more save. |
| RateLimit.PersistedTwice | src/services/rateLimitService.ts:33-40 | A later save completely overwrites an earlier one. |
| RateLimit.Load | src/services/rateLimitService.ts:43-66 | A record loads exactly when it is stored, non-empty, parses, and its reset time has not come. A parseable record whose reset time has come is purged and reads as absent. The latch can only be loaded with a record. |
| RateLimit.InitialQuota | src/services/rateLimitService.ts:107-119 | Without a record, start-up uses the defaults with the latch clear. Otherwise it uses the record and the stored latch. When the latch is set but the record is not flagged, it forces `exceeded = true` and `remaining = 0`; a set latch therefore always comes with the flag. |
| RateLimit.StartupCheckFiresOnlyAcrossReset | src/services/rateLimitService.ts:43-76 | The start-up check reads the clock again after the load. It fires only when a latched record's reset time falls after the load's reading and no later than the check's, since a record already due at load time was purged. So it never fires when the check's reading is not later than the load's. |
| RateLimit.StartupCheckCanFire | src/services/rateLimitService.ts:43-82 | The start-up check does fire when its reading crosses the reset time of a saved latched record that was not due at load time. The reload restores that latched state and the check clears it. |
| RateLimit.ReloadRestoresQuota | src/services/rateLimitService.ts:33-66 | Reloading a saved state whose latch implies its flag, and whose reset time has not come, restores the same snapshot and latch. |
| RateLimit.Broadcast | src/services/rateLimitService.ts:100-104 | Every subscriber, in order and exactly once, receives the current snapshot. |
| RateLimit.BroadcastsAppend | src/services/rateLimitService.ts:100-104 | The deliveries of two runs of notifications, one after the other, are the broadcasts of the joined run of snapshots. |
| RateLimit.IndexOf | src/services/rateLimitService.ts:145 | The result is the first position of the callback, or -1 exactly when it is absent. |
| RateLimit.RemoveFirstIsSplice | src/services/rateLimitService.ts:144-149 | Splicing out the first occurrence is removing the first occurrence. |
| RateLimit.RemoveFirstRemovesOne | src/services/rateLimitService.ts:144-149 | The disposer takes exactly one occurrence out of the multiset of callbacks and shortens the list by one. With no occurrence left, for example on a repeated call, it changes nothing. |
| RateLimit.RateLimitTracker.constructor | src/services/rateLimitService.ts:43-135 | Start-up loads with one clock reading (`loadMs`) and runs the check with a second one (`checkMs`). The state is `AfterCheck(InitialQuota(Load(..., loadMs)), checkMs)`. A record due at load time has its keys removed; if the check fires, the keys are removed again, and no other key changes. The interval is started, and there are no subscribers and no deliveries. |
| RateLimit.RateLimitTracker.Save | src/services/rateLimitService.ts:33-40 | The store holds the encoded snapshot and the latch text; a store that throws is left alone. |
| RateLimit.RateLimitTracker.Purge | src/services/rateLimitService.ts:85-90 | Both tracker keys are removed, ignoring a store that throws. |
| RateLimit.RateLimitTracker.NotifySubscribers | src/services/rateLimitService.ts:100-104 | The deliveries grow by one copy of the snapshot per subscriber, in order. |
| RateLimit.RateLimitTracker.UpdateRateLimitInfo | src/services/rateLimitService.ts:153-166 | The tracker moves as `Updated` says, the new state is saved, and every subscriber is notified. |
| RateLimit.RateLimitTracker.ExtractRateLimitInfo | src/services/rateLimitService.ts:191-233 | The tracker moves as `AfterResponse` says, then saves and notifies. |
| RateLimit.RateLimitTracker.ResetRateLimitExceeded | src/services/rateLimitService.ts:246-256 | The tracker moves as `AfterManualReset` says. Subscribers are notified, and both keys end up removed. |
| RateLimit.RateLimitTracker.SetRateLimitExceeded | src/services/rateLimitService.ts:177-188 | The tracker moves as `AfterSetExceeded` says. On `true` it saves; on `false` it removes both keys. |
| RateLimit.RateLimitTracker.CheckAndResetRateLimit | src/services/rateLimitService.ts:69-97 | The method returns true exactly when a reset is due. The tracker moves as `AfterCheck` says. Only a reset removes the keys and notifies. |
| RateLimit.RateLimitTracker.StartResetCheckInterval | src/services/rateLimitService.ts:125-131 | The interval exists afterwards; a second call starts no second one. |
| RateLimit.RateLimitTracker.Tick | src/services/rateLimitService.ts:127-129 | One firing of the running interval runs the check. When a reset is due, the tracker is restored, every subscriber is notified and both keys are removed; otherwise neither the deliveries nor the store change. |
| RateLimit.RateLimitTracker.Subscribe | src/services/rateLimitService.ts:140-142 | The callback is appended and called once, before returning, with the current snapshot. |
| RateLimit.RateLimitTracker.Unsubscribe | src/services/rateLimitService.ts:144-149 | The first occurrence of the callback is removed. |
| Cache.CacheKeyInjective | src/utils/cacheUtils.ts:23 | Different raw queries are stored under different keys. |
| Cache.CacheKeysAvoidTrackerKeys | src/utils/cacheUtils.ts:23 | No cache key is one of the tracker's keys, and neither tracker key carries the cache prefix. |
| Cache.LookupCached | src/utils/cacheUtils.ts:36-59 | Missing, empty, unparseable or unavailable entries give no results. An entry older than 24 hours (strictly) gives none and is evicted. Otherwise the stored results are returned, and they are at most 24 hours old. |
| Cache.CachedResultsRoundTrip | src/utils/cacheUtils.ts:16-54 | Results stored at `t` come back unchanged from any lookup up to and including `t` + 24 hours. |
| Cache.CachedResultsExpire | src/utils/cacheUtils.ts:47-51 | A lookup more than 24 hours after storing returns nothing and evicts the entry. |
| Cache.StoreLeavesOtherQueries | src/utils/cacheUtils.ts:23 | Storing results for one query leaves the lookup of every other query unchanged. |
| Cache.CacheResults | src/utils/cacheUtils.ts:16-28 | The entry for the query is overwritten with the results and `now`; a store that throws is ignored. |
| Cache.GetCachedResults | src/utils/cacheUtils.ts:36-59 | The method returns what the lookup returns, and removes the key exactly when the lookup evicts. |
| Cache.WithoutCacheEntries | src/utils/cacheUtils.ts:64-81 | The store keeps exactly the keys without the `github-search-` prefix, with their values. |
| Cache.ClearedCacheIsEmpty | src/utils/cacheUtils.ts:64-81 | After clearing, no query has cached results, and the tracker's keys keep their values. |
| Cache.ClearCache | src/utils/cacheUtils.ts:64-81 | Both loops together remove every prefixed key and nothing else; a store that throws is left alone. |
| Cache.ExactFallback | src/utils/cacheUtils.ts:142-144 | The result is the entry whose key is exactly the query, or none exactly when no key is. |
| Cache.PartialFallback | src/utils/cacheUtils.ts:147-151 | The result is the entry of the first key, in catalogue order, that includes or is included in the query, or none exactly when no key qualifies. |
| Cache.FallbackFrom | src/utils/cacheUtils.ts:140-155 | An exact key wins, then the first partial match, and otherwise the empty list. |
| Cache.FallbackByKey | src/utils/cacheUtils.ts:140-155 | "react" and "javascript" get their own lists, and any other query containing "react" gets the 'react' list. |
| Cache.EmptyQueryFallback | src/utils/cacheUtils.ts:147-151 | The empty query gets the 'react' list, since every key includes it. |
| Cache.FallbackComesFromCatalog | src/utils/cacheUtils.ts:87-132 | Every fallback answer is empty or one of the two catalogue lists. |
| GitHubApi.FailureText | src/services/githubApi.ts:57 | The provider's message is used when it is present and non-empty; otherwise the text is the prefix plus the status. |
| GitHubApi.Attempt | src/services/githubApi.ts:48-66 | A network failure fails with its message, leaves the tracker alone and notifies nobody. A reply first has its quota headers read, which broadcasts the new snapshot. A non-2xx reply fails with the provider's message; a rate-limit message latches the tracker and broadcasts a second time. A 2xx JSON reply yields exactly its items. The last snapshot broadcast is the final tracker state. |
| GitHubApi.Caught | src/services/githubApi.ts:67-75 | A rate-limit failure leaves the tracker latched with `remaining = 0`; any other outcome leaves it alone. |
| GitHubApi.GuardedSearch | src/services/githubApi.ts:43-76 | While exceeded, the search fails with the rate-limit message, the tracker is untouched and nobody is notified. Otherwise the result is the attempt's and the catch is applied, whose latching broadcasts once more. A rate-limit failure always leaves the tracker exceeded. Subscribers last saw the final tracker state, and a search that broadcast nothing left the tracker as it was. |
| GitHubApi.BlockedWhileExceeded | src/services/githubApi.ts:44-46 | A blocked search reports the fixed rate-limit message, which classifies as a rate-limit error. |
| GitHubApi.ProviderRateLimitLatches | src/services/githubApi.ts:55-63 | A 403 reply carrying the provider's rate-limit message fails with that message and leaves the tracker latched and exceeded. |
| GitHubApi.CreateRepoResults | src/services/githubApi.ts:115-124 | Repositories map one-to-one and in order to items with `id = "repo-" + id`, the repository kind, and the URL, avatar and description of the repository. |
| GitHubApi.UserItems | src/services/githubApi.ts:199-205 | Users map one-to-one and in order to user items. |
| GitHubApi.OwnerUsersNames | src/services/githubApi.ts:176-192 | The owner users carry exactly the owner logins of the repositories. |
| GitHubApi.OwnerUsersDistinct | src/services/githubApi.ts:176-192 | No login appears twice among the owner users. |
| GitHubApi.OwnerUsersFirstWins | src/services/githubApi.ts:176-192 | Every owner user is built, with `id = "user-" + owner id`, from the first repository of its owner. |
| GitHubApi.OwnerUsersOrdered | src/services/githubApi.ts:176-192 | Owner users come in the order their logins first appear. |
| GitHubApi.OwnerUsersAreUsers | src/services/githubApi.ts:176-192 | Every owner user has the user kind. |
| GitHubApi.DropKnown | src/services/githubApi.ts:208-212 | An item is kept exactly when it was in the list and its name is not a known login. |
| GitHubApi.Cap | src/services/githubApi.ts:220-222 | The result is the longest prefix of at most 50 items; nothing is cut when the list fits. |
| GitHubApi.HeadersFor | src/services/githubApi.ts:30-40 | `Accept` is always the v3 JSON type, and `Authorization: token <t>` is present exactly when a non-empty token is set. |
| GitHubApi.MergeResultsShape | src/services/githubApi.ts:220-222 | The merged list has at most 50 items: repositories first, in order, then user items only. When everything fits it is the whole concatenation. |
| GitHubApi.WithDirectUsersShape | src/services/githubApi.ts:195-216 | The user part holds user items only, and no direct user repeats an owner login. |
| GitHubApi.ExceededSearch | src/services/githubApi.ts:138-144 | While the tracker is exceeded, nothing is requested. A non-empty fallback list is returned; otherwise the rate-limit error is raised and the tracker is latched with `remaining = 0`. |
| GitHubApi.FailedSearchFallsBack | src/services/githubApi.ts:224-240 | When the repository request fails, a non-empty fallback list is returned; otherwise the failure is raised. A rate-limit failure latches the tracker. |
| GitHubApi.SubscribersSeeFinalQuota | src/services/githubApi.ts:135-241 | When `searchGitHub` broadcast any snapshot, the last one is the tracker's final state, so subscribers are never left with a stale one. |
| GitHubApi.SilentSearchKeepsQuota | src/services/githubApi.ts:135-241 | When `searchGitHub` broadcast nothing, the tracker is unchanged. A request was sent without any broadcast only on a network failure. |
| GitHubApi.LiveSearchShape | src/services/githubApi.ts:147-222 | A live search returns at most 50 items: the repositories first, then users only. The user request is sent exactly when there are fewer than 8 repositories or the untrimmed query is shorter than 4 characters, and the tracker allows it. The repository request carries the trimmed query. |
| GitHubApi.TestQueryScenario | src/tests/setup.ts:22-128 | For the mock provider's 'test' replies, the result is the two repositories followed by their two owners, with no duplicate. |
| GitHubApi.TestMerge | src/services/githubApi.ts:208-222 | For the 'test' data, the direct users are both owners, so nothing is added after them. |
| GitHubApi.TestOwners | src/services/githubApi.ts:176-192 | The owners of the 'test' repositories are `testuser1` and `testuser2`, in that order. |
| GitHubApi.CollectOwners | src/services/githubApi.ts:176-192 | The `forEach` loop builds exactly the owner users, and the set of their logins. |
| GitHubApi.AppendDirectUsers | src/services/githubApi.ts:208-212 | The `forEach` loop appends exactly the direct users whose login is not an owner login, in order. |
| GitHubApi.GitHubClient.constructor | src/services/githubApi.ts:16 | The client starts with no token. |
| GitHubApi.GitHubClient.ConfigureGitHubApi | src/services/githubApi.ts:19-27 | The token is stored, and `limit = remaining = 30` for a token or 10 without one are merged into the tracker. The tracker is saved and broadcasts its new snapshot once. |
| GitHubApi.GitHubClient.CatchRateLimit | src/services/githubApi.ts:67-75 | The tracker moves as `Caught` says. It is saved, and broadcasts once, only when it latched. |
| GitHubApi.GitHubClient.Send | src/services/githubApi.ts:48-66 | The outcome, the tracker and the deliveries are those of `Attempt`; a reply saves the tracker. |
| GitHubApi.GitHubClient.Receive | src/services/githubApi.ts:53-66 | As `Send`, once a reply arrived. |
| GitHubApi.GitHubClient.Search | src/services/githubApi.ts:43-76 | The outcome, the tracker and the deliveries are those of `GuardedSearch`. No request is sent while exceeded, and one request is sent otherwise. |
| GitHubApi.GitHubClient.SearchUsers | src/services/githubApi.ts:43-76 | As `Search`, for the user endpoint. |
| GitHubApi.GitHubClient.SearchRepos | src/services/githubApi.ts:79-112 | As `Search`, for the repository endpoint. |
| GitHubApi.GitHubClient.SearchGitHub | src/services/githubApi.ts:135-241 | The result, the requests sent, the tracker and store afterwards, and the snapshots delivered to the subscribers are those of `SearchGitHubRun`, whose outcomes the lemmas above state. |
| GitHubApi.GitHubClient.SearchWhileExceeded | src/services/githubApi.ts:138-144 | As `SearchGitHub`, on the exceeded path. |
| GitHubApi.GitHubClient.SearchLive | src/services/githubApi.ts:147-231 | As `SearchGitHub`, on the live path. |
| GitHubApi.GitHubClient.AddUserResults | src/services/githubApi.ts:176-217 | The result is the owner users, followed by direct users when there are few repositories or the query is short. A failed user search adds nothing. The deliveries are those of the user search, when it runs. |
| SearchHook.Reduce | src/hooks/useGitHubSearch.ts:25-76 | `SET_QUERY` sets the query, clears the selection and error, and opens the dropdown exactly for 3 or more characters. `SET_RESULTS` stops loading and shows the dropdown exactly for non-empty results. `SET_LOADING true` clears the error, and `false` keeps it. `SET_ERROR` stops loading and shows the dropdown exactly for an error. Each setter changes only its own field. `RESET` gives the initial state. |
| SearchHook.ReduceIdempotent | src/hooks/useGitHubSearch.ts:25-76 | Dispatching the same action twice in a row is dispatching it once. |
| SearchHook.EmptyQueryOfInitialState | src/hooks/useGitHubSearch.ts:12-37 | Clearing the query of the initial state gives the initial state back. |
| SearchHook.InputChangeOutcome | src/hooks/useGitHubSearch.ts:98-104 | After an input change, the query is the value, with no selection and no error. A value under 3 characters leaves no results and a closed dropdown. A longer one opens the dropdown over the old results. |
| SearchHook.ErrorText | src/hooks/useGitHubSearch.ts:157-171 | A message with "rate limit exceeded" shows the fixed rate-limit text. Otherwise one with "Network Error" shows the network text. Otherwise it shows `"Error: " + message`. |
| SearchHook.RateLimitErrorText | src/hooks/useGitHubSearch.ts:162-163 | Both the provider's message and the blocked-request message show the rate-limit text. |
| SearchHook.SearchStepOutcome | src/hooks/useGitHubSearch.ts:130-176 | A short trimmed query changes nothing. A cache hit shows its results without loading. A successful search shows its results with no error. A failure shows its message in an open dropdown and keeps the old results. |
| SearchHook.PerformSearch | src/hooks/useGitHubSearch.ts:130-176 | The step dispatches `SearchActions` of the trimmed query, the cache lookup and the search run. A short query touches nothing, and a cache hit makes no request and notifies nobody. The whole store afterwards is `StepEntries`, and a miss delivers exactly the run's snapshots. After a successful search on a store that accepts writes, the trimmed query reads back its results for 24 hours. |
| SearchHook.SearchAndCache | src/hooks/useGitHubSearch.ts:147-172 | After a cache miss, the step dispatches loading and then the results or the mapped error. The whole store afterwards is `MissEntries`: the run's save, then successful results cached under the query. The deliveries are exactly the run's snapshots. |
| SearchHook.StepTouchesOnlyItsKeys | src/hooks/useGitHubSearch.ts:130-176 | A search step writes or removes only the query's cache entry and the two tracker keys. A short query or a cache hit leaves the store as it was. |
| SearchHook.MissCachesResults | src/hooks/useGitHubSearch.ts:147-156 | After a miss whose search succeeded, on a store that accepts writes, the cache answers the query with those results for the next 24 hours. |
| KeyboardNavigation.Next | src/hooks/useKeyboardNavigation.ts:38 | From no selection or a valid index, the result is `(i + 1) mod len`, which is always a valid index. |
| KeyboardNavigation.Prev | src/hooks/useKeyboardNavigation.ts:49 | On valid indices the result is `(i - 1) mod len`. From no selection it goes to the last item, and the result is always a valid index. |
| KeyboardNavigation.PrevNextInverse | src/hooks/useKeyboardNavigation.ts:34-51 | On valid indices, up undoes down and down undoes up. |
| KeyboardNavigation.FullCycle | src/hooks/useKeyboardNavigation.ts:38 | `len` applications of the ArrowDown increment return to the starting item. |
| KeyboardNavigation.ArrowDown | src/hooks/useKeyboardNavigation.ts:34-40 | The handler acts exactly when the dropdown is open with results. It then sets the wraparound increment, which is valid. |
| KeyboardNavigation.ArrowUp | src/hooks/useKeyboardNavigation.ts:45-51 | The handler acts exactly when the dropdown is open with results. It then sets the wraparound decrement, which is valid, and goes from -1 to the last item. |
| KeyboardNavigation.Enter | src/hooks/useKeyboardNavigation.ts:56-61 | `onSelect` is skipped exactly when the dropdown is closed, there are no results or the index is -1. It receives `results[i]` exactly when the index is valid. |
| KeyboardNavigation.EnterInRange | src/hooks/useKeyboardNavigation.ts:56-61 | On an index from -1 to `len - 1`, `onSelect` never receives `undefined`. |
| KeyboardNavigation.Escape | src/hooks/useKeyboardNavigation.ts:66-72 | `closeDropdown` is called exactly when the dropdown is open and the callback was given. |
| Autocomplete.ArrowDownKey | src/components/GitHubAutocomplete/index.tsx:37-44 | With the dropdown open and results, only the selection moves down with wraparound. With it closed and results, only the dropdown opens. With no results nothing changes. |
| Autocomplete.ArrowUpKey | src/components/GitHubAutocomplete/index.tsx:46-53 | The same as ArrowDown, with the wraparound decrement. |
| Autocomplete.EscapeKey | src/components/GitHubAutocomplete/index.tsx:61-65 | Only the dropdown flag changes, and it ends closed. |
| Autocomplete.ClickOutside | src/components/GitHubAutocomplete/index.tsx:67-72 | A press outside closes the dropdown and changes nothing else; a press inside changes nothing. |
| Autocomplete.HandlersKeepSelectionInRange | src/components/GitHubAutocomplete/index.tsx:37-77 | The arrows, Escape and a click outside keep the selection on a result or on none. |
| Autocomplete.ArrowsUndoEachOther | src/components/GitHubAutocomplete/index.tsx:37-53 | With the dropdown open on a result, ArrowUp undoes ArrowDown and ArrowDown undoes ArrowUp. |
| Autocomplete.ReopenRestoresView | src/components/GitHubAutocomplete/index.tsx:37-65 | Reopening with ArrowDown after Escape changes only the dropdown flag. |
| Autocomplete.HandleSelect | src/components/GitHubAutocomplete/index.tsx:29-35 | The item's URL is opened, and the external `onSelect` receives the item exactly when it was given. |
| Autocomplete.EnterKeyAsWritten | src/components/GitHubAutocomplete/index.tsx:55-59 | As written, Enter throws exactly when the dropdown is open with results and the index is past the end. It otherwise selects only `results[i]` for a valid `i`. |
| Autocomplete.ActiveDescendantAsWritten | src/components/GitHubAutocomplete/index.tsx:80 | As written, the rendering throws exactly when there are results and the index is past the end. |
| Autocomplete.EnterKey | src/components/GitHubAutocomplete/index.tsx:55-59 | Enter selects exactly the highlighted result, and only with the dropdown open and a valid index. Nothing in the search state changes. |
| Autocomplete.ActiveDescendant | src/components/GitHubAutocomplete/index.tsx:80 | The result is `"github-result-" + id` of the highlighted result for a valid index, and `""` otherwise. |
| Autocomplete.CheckedAgreesInRange | src/components/GitHubAutocomplete/index.tsx:55-80 | While the selection is in range, the version as written and the checked version agree. |
| Autocomplete.NewResultsCanLeaveSelectionOutOfRange | src/hooks/useGitHubSearch.ts:38-45 | `SET_RESULTS` keeps the selection, so a shorter list leaves it past the end. |
| Autocomplete.TypedOnState | src/hooks/useGitHubSearch.ts:27-45 | Typing "abc", receiving three results, then typing "abcd" gives the stated state: old results shown and nothing selected. |
| Autocomplete.StaleSelectionThrows | src/components/GitHubAutocomplete/index.tsx:55-80 | Highlighting the third old result and then receiving one result makes Enter and `activeDescendant`, as written, read past the end. The checked versions select and name nothing. |
| Debounce.Mounted | src/hooks/useDebounce.ts:15-21 | The debounced value starts as the initial value, and one commit of it is scheduled `delay` ms later. |
| Debounce.Changed | src/hooks/useDebounce.ts:17-27 | A render with the same value and delay does nothing. A new value or a new delay replaces the pending timer by one for the value, due `delay` ms later. |
| Debounce.Fired | src/hooks/useDebounce.ts:19-21 | A due timer commits its value and is gone; otherwise nothing changes. |
| Debounce.TornDown | src/hooks/useDebounce.ts:24-27 | Teardown clears the pending timer and keeps the commits. |
| Debounce.NothingCommitsAfterTeardown | src/hooks/useDebounce.ts:24-27 | After teardown, no timer fires at any time. |
| Debounce.CommitIsLatest | src/hooks/useDebounce.ts:17-27 | Every commit carries the latest input, so a superseded value is never committed. |
| Debounce.QuietPeriodCommits | src/hooks/useDebounce.ts:19-21 | With no change for `delay` ms after a change, that change's value is committed. |
| Debounce.ChangeCancelsPending | src/hooks/useDebounce.ts:24-27 | A change before the pending timer is due cancels it, and its value is not committed. |
| Debounce.DelayChangeReschedules | src/hooks/useDebounce.ts:17-27 | A new delay alone also reruns the effect: the pending commit is cancelled and rescheduled at the new delay after that render. |
| Debounce.BurstLeavesOneTimer | src/hooks/useDebounce.ts:17-27 | During a burst of close changes, nothing new commits, and one timer is left, for the last value. |
| Debounce.BurstCommitsOnce | src/hooks/useDebounce.ts:17-27 | A burst followed by `delay` quiet ms commits exactly once, the last value, and nothing before. |
| Debounce.Debouncer.constructor | src/hooks/useDebounce.ts:15-21 | The instance starts in the `Mounted` state. |
| Debounce.Debouncer.Change | src/hooks/useDebounce.ts:17-27 | The instance moves as `Changed` says. |
| Debounce.Debouncer.Fire | src/hooks/useDebounce.ts:19-21 | The instance moves as `Fired` says. |
| Debounce.Debouncer.Teardown | src/hooks/useDebounce.ts:24-27 | The instance moves as `TornDown` says. |
| TypingAwareDebounce.Mounted | src/hooks/useTypingAwareDebounce.ts:8-19 | The debounced value starts as the initial value, the typing time is `now`, and the first timer is due `delay` ms later. |
| TypingAwareDebounce.Changed | src/hooks/useTypingAwareDebounce.ts:12-37 | A render that changes the value, the delay or the threshold records its time and replaces the pending timer, of either kind, by a first timer for the value. A render that changes none of them does nothing. |
| TypingAwareDebounce.Fired | src/hooks/useTypingAwareDebounce.ts:19-30 | When due, the first timer commits if at least the threshold has passed since the last change. Otherwise it schedules the second timer for the rest of the threshold. The second timer commits. |
| TypingAwareDebounce.TornDown | src/hooks/useTypingAwareDebounce.ts:32-36 | Teardown clears whichever timer is pending. |
| TypingAwareDebounce.NothingCommitsAfterTeardown | src/hooks/useTypingAwareDebounce.ts:32-36 | After teardown, nothing commits at any time. |
| TypingAwareDebounce.CommitIsLatest | src/hooks/useTypingAwareDebounce.ts:13-30 | Every commit carries the latest input, so a superseded value is never committed. |
| TypingAwareDebounce.QuietCommit | src/hooks/useTypingAwareDebounce.ts:13-30 | With no further change, the value commits exactly once, `max(delay, threshold)` ms after the change, and nothing commits earlier. |
| TypingAwareDebounce.ThresholdChangeRestarts | src/hooks/useTypingAwareDebounce.ts:12-37 | A new threshold alone reruns the effect. The typing time restarts, the pending timer is replaced, and the new first timer commits on firing exactly when the delay is at least the new threshold. |
| TypingAwareDebounce.TypingAwareDebouncer.constructor | src/hooks/useTypingAwareDebounce.ts:8-19 | The instance starts in the `Mounted` state. |
| TypingAwareDebounce.TypingAwareDebouncer.Change | src/hooks/useTypingAwareDebounce.ts:13-19 | The instance moves as `Changed` says. |
| TypingAwareDebounce.TypingAwareDebouncer.Fire | src/hooks/useTypingAwareDebounce.ts:19-30 | The instance moves as `Fired` says. |
| TypingAwareDebounce.TypingAwareDebouncer.Teardown | src/hooks/useTypingAwareDebounce.ts:32-36 | The instance moves as `TornDown` says. |
| Highlight.EscapeRegExp | src/utils/highlightText.tsx:24 | The escape only adds characters. `EscapedQueryIsLiteral` states what it means. |
| Highlight.EscapedQueryIsLiteral | src/utils/highlightText.tsx:24 | The escaped query is a valid literal pattern for exactly the query, so the `catch` is never reached. |
| Highlight.SplitConcat | src/utils/highlightText.tsx:27 | The split pieces join back to the text. |
| Highlight.SplitOddPiecesMatch | src/utils/highlightText.tsx:27 | Every odd piece equals the query, ignoring case. |
| Highlight.SplitEvenPiecesUnmatched | src/utils/highlightText.tsx:27 | No even piece contains the query, ignoring case. |
| Highlight.SplitSingleIffUnmatched | src/utils/highlightText.tsx:27-31 | The split has one piece exactly when the query does not occur. |
| Highlight.Mark | src/utils/highlightText.tsx:34-40 | Each piece is kept, and highlighted exactly when it equals the query ignoring case. |
| Highlight.BlankQueryKeepsText | src/utils/highlightText.tsx:18-20 | A blank or whitespace-only query returns the text unchanged. |
| Highlight.UnmatchedQueryKeepsText | src/utils/highlightText.tsx:27-31 | A query that does not occur, ignoring case, returns the text unchanged. |
| Highlight.HighlightReassembles | src/utils/highlightText.tsx:27-40 | The rendered pieces always join back to the text. |
| Highlight.HighlightIsMarkedSplit | src/utils/highlightText.tsx:27-40 | When the query occurs, the result is the marked split, with at least three pieces. |
| Highlight.MarkAlternates | src/utils/highlightText.tsx:34-40 | Pieces that alternate no occurrence and occurrence have exactly the odd ones highlighted. |
| Highlight.HighlightMarksOccurrences | src/utils/highlightText.tsx:27-40 | When the query occurs, the parts alternate plain and highlighted, starting and ending plain, and every highlighted part equals the query ignoring case. |
| Countdown.SecondsRemaining | src/components/GitHubAutocomplete/ResetCountdownTimer.tsx:24-28 | The countdown is `reset - floor(now / 1000)` while positive, and 0 once that time is reached. |
| Countdown.CountdownNonIncreasing | src/components/GitHubAutocomplete/ResetCountdownTimer.tsx:24-28 | The countdown never goes up as time passes. |
| Countdown.CountdownStep | src/components/GitHubAutocomplete/ResetCountdownTimer.tsx:24-34 | One second later, the countdown is one less, stopping at 0. |
| Countdown.ColorFor | src/components/GitHubAutocomplete/ResetCountdownTimer.tsx:41-46 | The colour is green below 10 s, yellow from 10 up to 30 s, and red from 30 s on. |
| Countdown.ColorOnlyWarms | src/components/GitHubAutocomplete/ResetCountdownTimer.tsx:41-46 | As time passes, the colour only moves from red towards green. |
| Countdown.PadKeepsValue | src/components/GitHubAutocomplete/ResetCountdownTimer.tsx:52 | Padding one or two digits gives two digits with the same value. |
| Countdown.FormatRoundTrip | src/components/GitHubAutocomplete/ResetCountdownTimer.tsx:49-53 | `m:ss` reads back as the same number of seconds, with `ss` always two digits below 60. |
| Countdown.CountdownTimer.constructor | src/components/GitHubAutocomplete/ResetCountdownTimer.tsx:21 | The first render shows 0 and no interval is running. |
| Countdown.CountdownTimer.RunEffect | src/components/GitHubAutocomplete/ResetCountdownTimer.tsx:23-38 | On mount or a new reset time, the countdown is recomputed at once and a fresh interval runs. |
| Countdown.CountdownTimer.Tick | src/components/GitHubAutocomplete/ResetCountdownTimer.tsx:34 | A tick recomputes the countdown while the interval runs. |
| Countdown.CountdownTimer.Unmount | src/components/GitHubAutocomplete/ResetCountdownTimer.tsx:37 | Unmounting clears the interval. |

## Left out

- Storage.Store.SetItem: one `available` flag governs reads, writes and removals. So a store over quota, which serves reads and removals but throws on `setItem`, is not modelled. Nor is a `saveRateLimitToStorage` (src/services/rateLimitService.ts:33-40) whose first write succeeds and whose latch write throws, leaving a new snapshot beside a stale latch.
- Network I/O is not modelled. `fetch`, `response.json()` and `encodeURIComponent` are replaced: each request is answered by a `Fetch` value, and a request records its `q` before URL encoding.
- `console.log` and `console.warn` have no effect on state and are not modelled.
- `JSON.stringify` and `JSON.parse` are replaced by the self-delimiting codec in `Codec`. Only its round trip, and the rejection of text without a leading number, stand for JSON behaviour. Stored text that JSON would accept but the codec rejects reads as absent.
- The parsing of response headers (`parseInt`) is not modelled. Headers are `Option<int>`, with a missing or empty header as `None`. A header that does not parse as a number (`NaN`) is not modelled.
- `toLocaleTimeString` depends on the host, so it is an opaque string in `ResponseMeta`.
- `GitHubApi.Attempt` gives a 2xx reply without `items` a fixed error text. In JavaScript the text of that `TypeError` depends on the host; only its path (caught, not a rate-limit error) is modelled.
- A repository with a `null` owner is not modelled: the `repo.owner &&` guard of `githubApi.ts:179` is always true here.
- Concurrency is not modelled. Each `performSearch` runs to completion, and an older search finishing after a newer one is not covered. The source has no staleness token, and none is added.
- `getRateLimitInfo` (`rateLimitService.ts:236-238`) returns a copy of the snapshot, `info` in the model. Copying versus aliasing is not modelled for it or for the snapshots handed to subscribers.
- The `useRateLimit` React hook (`rateLimitService.ts:259-279`) is React plumbing over `Subscribe`/`Unsubscribe` and is not modelled.
- React machinery is reduced to the state transitions it causes. This covers `useState`, `useEffect`, `useReducer` and `useCallback`. Dependency lists are modelled for the two debounce effects only. `handleArrowDown` and `handleArrowUp` leave `selectedIndex` out of their dependency lists (useKeyboardNavigation.ts:40,51), so repeated presses through the hook reuse the index captured when `isOpen` or `results.length` last changed; `KeyboardNavigation.ArrowDown`, `KeyboardNavigation.ArrowUp` and `KeyboardNavigation.FullCycle` instead apply the increment to the current index, as the reducer-level state transition does. DOM listener wiring is also reduced this way: the global `keydown` filter of `useKeyboardNavigation.ts:77-124`, and the `mousedown` registration of `index.tsx:67-77`, which is modelled by `ClickOutside`.
- Timers fire when the model's `Fire`/`Tick` event is applied at a time at or after the due time. Timer drift and the browser's minimum delay are not modelled. A negative `delay` is not modelled: delays are `nat`.
- Case folding is ASCII only. `Strings.Lower` lower-cases `A`-`Z` and keeps every other character, so the results of `isRateLimitError` and `highlightText` for non-ASCII letters are not modelled.
- JavaScript string lengths count UTF-16 code units, while the model counts characters. The two differ only for characters outside the Basic Multilingual Plane, in the 3- and 4-character query gates.
- `Highlight.HighlightText` models the regular expression only for literal patterns. The escape always yields one (`EscapedQueryIsLiteral`), so the pattern-error `catch` of `highlightText.tsx:41-45` is unreachable and is modelled as returning the text.
- The `FALLBACK_RESULTS` lookup uses only the catalogue's two own keys. Inherited object keys (such as `constructor`) answering `FALLBACK_RESULTS[query]` are not modelled.
- Rendering is not modelled: the JSX of the components, `SearchInput.tsx`, `DropdownList.tsx`, `ResultItem.tsx`, `RateLimitIndicator.tsx`, `GitHubApiConfig.tsx` and `App.tsx`.
- The default error text of `useGitHubSearch.ts:158` ("An error occurred while searching") is not modelled. It is used only when a non-`Error` value is thrown, which no modelled path does.
- Highlight.EscapeRegExp: its own contract states only that the escape adds characters. What the escape means is stated by `EscapedQueryIsLiteral`.

Three behaviours of the code worth noting:

- `configureGitHubApi` (src/services/githubApi.ts:19-24) only merges `limit` and `remaining` into the tracker, and does not clear the latch.
- A cache entry expires only when it is strictly more than 24 hours old (src/utils/cacheUtils.ts:48), so one exactly 24 hours old is still returned.
- `performSearch` (src/hooks/useGitHubSearch.ts:130-176) carries no request token against stale responses.

## Findings

| source | as written | input that shows it | evidently intended | confidence | as-written member | corrected member |
|---|---|---|---|---|---|---|
| src/components/GitHubAutocomplete/index.tsx:55-59 | `handleEnterKey` and `activeDescendant` (line 80) check `selectedIndex >= 0 && results.length > 0` but not `selectedIndex < results.length`, and `SET_RESULTS` (src/hooks/useGitHubSearch.ts:38-45) keeps the selection. | Type "abc", receive three results, and type "abcd". Press ArrowDown three times (selection 2). The search for "abcd" then returns one result. Rendering then reads `results[2].id` for `activeDescendant` (index.tsx:80) and throws a `TypeError`; App.tsx has no error boundary, so the tree unmounts. `handleEnterKey` would also throw, calling `handleSelect(undefined)` and reading `item.url`, if it were reached, but SearchInput.tsx:56 calls `onEnter` only with a non-empty `aria-activedescendant`. | Select and name a result only when the index is below the length. | not executed | Autocomplete.EnterKeyAsWritten, Autocomplete.ActiveDescendantAsWritten, Autocomplete.StaleSelectionThrows | Autocomplete.EnterKey, Autocomplete.ActiveDescendant, Autocomplete.CheckedAgreesInRange |
