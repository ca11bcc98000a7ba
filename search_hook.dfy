/**
 * The search hook of `src/hooks/useGitHubSearch.ts`: the reducer over
 * `SearchState`, the input handler, and `performSearch`, the step run each
 * time the debounced query changes: gate on length, try the cache, else
 * search, then cache the results or map the error to a message.
 */
module SearchHook {
  import opened Wrappers
  import opened Strings
  import opened Types
  import opened Storage
  import opened RateLimit
  import opened Cache
  import opened GitHubApi

  /** `initialState`. */
  const InitialState := SearchState("", [], false, None, -1, false)

  /** The minimum query length that opens the dropdown and triggers a search. */
  const MinQueryLength := 3

  /** `searchReducer(state, action)`. */
  function Reduce(state: SearchState, action: SearchAction): (r: SearchState)
    ensures action.SetQuery? ==>
      r == state.(query := action.query, selectedIndex := -1, error := None,
                  showDropdown := |action.query| >= MinQueryLength)
    ensures action.SetResults? ==>
      r == state.(results := action.results, isLoading := false, showDropdown := |action.results| > 0)
    ensures action.SetLoading? && action.loading ==> r == state.(isLoading := true, error := None)
    ensures action.SetLoading? && !action.loading ==> r == state.(isLoading := false)
    ensures action.SetError? ==>
      r == state.(error := action.error, isLoading := false, showDropdown := action.error.Some?)
    ensures action.SetSelectedIndex? ==> r == state.(selectedIndex := action.index)
    ensures action.SetShowDropdown? ==> r == state.(showDropdown := action.show)
    ensures action.Reset? ==> r == InitialState
  {
    match action
    case SetQuery(q) =>
      state.(query := q, selectedIndex := -1, showDropdown := |q| >= MinQueryLength, error := None)
    case SetResults(rs) =>
      state.(results := rs, isLoading := false, showDropdown := |rs| > 0)
    case SetLoading(b) =>
      state.(isLoading := b, error := if b then None else state.error)
    case SetError(e) =>
      state.(error := e, isLoading := false, showDropdown := e != None)
    case SetSelectedIndex(i) =>
      state.(selectedIndex := i)
    case SetShowDropdown(b) =>
      state.(showDropdown := b)
    case Reset =>
      InitialState
  }

  /** Dispatching the same action twice in a row is dispatching it once. */
  lemma ReduceIdempotent(state: SearchState, action: SearchAction)
    ensures Reduce(Reduce(state, action), action) == Reduce(state, action)
  {
  }

  /** Clearing the query of the initial state gives the initial state back. */
  lemma EmptyQueryOfInitialState()
    ensures Reduce(InitialState, SetQuery("")) == InitialState
  {
  }

  /** The dispatches applied in order. */
  function ReduceAll(state: SearchState, actions: seq<SearchAction>): SearchState
    decreases |actions|
  {
    if actions == [] then state else Reduce(ReduceAll(state, actions[..|actions| - 1]), actions[|actions| - 1])
  }

  /** `handleInputChange(value)`: the new query, and no results when it is too short to search. */
  function InputChangeActions(value: string): seq<SearchAction> {
    if |value| < MinQueryLength then [SetQuery(value), SetResults([])] else [SetQuery(value)]
  }

  /**
   * After an input change the query is the new value with nothing selected and
   * no error; a value shorter than 3 characters leaves no results and the
   * dropdown closed, a longer one opens the dropdown over the old results.
   */
  lemma InputChangeOutcome(state: SearchState, value: string)
    ensures var r := ReduceAll(state, InputChangeActions(value));
      && r.query == value && r.selectedIndex == -1 && r.error == None
      && (|value| < MinQueryLength ==> r.results == [] && !r.showDropdown && !r.isLoading)
      && (|value| >= MinQueryLength ==> r.results == state.results && r.showDropdown && r.isLoading == state.isLoading)
  {
    var acts := InputChangeActions(value);
    if |value| < MinQueryLength {
      assert acts[..1] == [SetQuery(value)];
      assert acts[..1][..0] == [];
    } else {
      assert acts[..0] == [];
    }
  }

  const NetworkErrorText := "Network error. Please check your connection and try again."

  /** The message shown for a failed search. */
  function ErrorText(message: string): (r: string)
    ensures Contains(message, ExceededPhrase) ==> r == RateLimitMessage
    ensures !Contains(message, ExceededPhrase) && Contains(message, "Network Error") ==> r == NetworkErrorText
    ensures !Contains(message, ExceededPhrase) && !Contains(message, "Network Error") ==> r == "Error: " + message
  {
    if Contains(message, ExceededPhrase) then RateLimitMessage
    else if Contains(message, "Network Error") then NetworkErrorText
    else "Error: " + message
  }

  /** The provider's rate-limit message and the blocked-request message both show the fixed rate-limit text. */
  lemma RateLimitErrorText()
    ensures ErrorText(ProviderRateLimitMessage) == RateLimitMessage
    ensures ErrorText(RateLimitMessage) == RateLimitMessage
  {
    ContainsInfix("API ", ExceededPhrase, "");
    assert "API " + ExceededPhrase + "" == ProviderRateLimitMessage;
    ContainsInfix("GitHub API ", ExceededPhrase, ". Please try again later.");
  }

  /**
   * The dispatches of `performSearch` for the trimmed query `query`, the cache
   * lookup's answer, and the search's outcome when the cache missed.
   */
  function SearchActions(query: string, cached: Option<seq<ResultItem>>, outcome: Result<seq<ResultItem>>): seq<SearchAction> {
    if |query| < MinQueryLength then []
    else if cached.Some? then [SetResults(cached.value)]
    else if outcome.Ok? then [SetLoading(true), SetResults(outcome.value)]
    else [SetLoading(true), SetError(Some(ErrorText(outcome.error)))]
  }

  lemma ReduceAllOne(state: SearchState, a: SearchAction)
    ensures ReduceAll(state, [a]) == Reduce(state, a)
  {
    assert [a][..0] == [];
  }

  lemma ReduceAllTwo(state: SearchState, a: SearchAction, b: SearchAction)
    ensures ReduceAll(state, [a, b]) == Reduce(Reduce(state, a), b)
  {
    assert [a, b][..1] == [a];
    ReduceAllOne(state, a);
  }

  /**
   * What a search step leaves in the state: nothing for a short query; a cache
   * hit or a successful search shows its results (the dropdown open iff there
   * are any) with no loading; a failed search shows its message in an open
   * dropdown and keeps the previous results.
   */
  lemma SearchStepOutcome(state: SearchState, query: string, cached: Option<seq<ResultItem>>, outcome: Result<seq<ResultItem>>)
    ensures var r := ReduceAll(state, SearchActions(query, cached, outcome));
      && (|query| < MinQueryLength ==> r == state)
      && (|query| >= MinQueryLength && cached.Some? ==>
            r == state.(results := cached.value, isLoading := false, showDropdown := |cached.value| > 0))
      && (|query| >= MinQueryLength && cached.None? && outcome.Ok? ==>
            r == state.(results := outcome.value, isLoading := false, error := None, showDropdown := |outcome.value| > 0))
      && (|query| >= MinQueryLength && cached.None? && outcome.Err? ==>
            r == state.(error := Some(ErrorText(outcome.error)), isLoading := false, showDropdown := true))
  {
    if |query| < MinQueryLength {
    } else if cached.Some? {
      ReduceAllOne(state, SetResults(cached.value));
    } else if outcome.Ok? {
      ReduceAllTwo(state, SetLoading(true), SetResults(outcome.value));
    } else {
      ReduceAllTwo(state, SetLoading(true), SetError(Some(ErrorText(outcome.error))));
    }
  }

  /**
   * The store after a cache miss: the search saves the tracker's state when
   * `run.saved`, then successful results are cached under the query at
   * `storeMs` (when the store is available).
   */
  function MissEntries(entries: map<string, string>, available: bool, query: string, storeMs: int, run: SearchRun)
    : map<string, string>
  {
    var searched := if run.saved then Persisted(entries, available, run.quota) else entries;
    if run.result.Ok? && available then Stored(searched, query, run.result.value, storeMs) else searched
  }

  /**
   * The store after a search step: untouched for a short query; otherwise the
   * lookup evicts an expired entry, and a miss continues as `MissEntries`.
   */
  function StepEntries(entries: map<string, string>, available: bool, query: string, lookupMs: int, storeMs: int,
                       run: SearchRun): map<string, string>
  {
    if |query| < MinQueryLength then entries
    else
      var lookup := LookupCached(entries, available, query, lookupMs);
      var looked := if lookup.evicted then entries - {CacheKey(query)} else entries;
      if lookup.results.Some? then looked else MissEntries(looked, available, query, storeMs, run)
  }

  /**
   * A search step writes or removes only the query's cache entry and the two
   * tracker keys; a cache hit and a short query leave the store as it was.
   */
  lemma StepTouchesOnlyItsKeys(entries: map<string, string>, available: bool, query: string, lookupMs: int, storeMs: int,
                               run: SearchRun)
    ensures AgreeOutside(entries, StepEntries(entries, available, query, lookupMs, storeMs, run),
                         {CacheKey(query), RateLimitKey, RateLimitExceededKey})
    ensures |query| < MinQueryLength || LookupCached(entries, available, query, lookupMs).results.Some? ==>
      StepEntries(entries, available, query, lookupMs, storeMs, run) == entries
  {
    if |query| >= MinQueryLength {
      var lookup := LookupCached(entries, available, query, lookupMs);
      var looked := if lookup.evicted then entries - {CacheKey(query)} else entries;
      if lookup.results.None? && run.saved {
        PersistTouchesOnlyTrackerKeys(looked, available, run.quota);
      }
    }
  }

  /**
   * After a miss whose search succeeded, the cache answers the query with
   * those results for the next 24 hours (when the store is available).
   */
  lemma MissCachesResults(entries: map<string, string>, query: string, storeMs: int, run: SearchRun, t: int)
    requires run.result.Ok? && t - storeMs <= CacheExpiration
    ensures LookupCached(MissEntries(entries, true, query, storeMs, run), true, query, t) == Lookup(Some(run.result.value), false)
  {
    var searched := if run.saved then Persisted(entries, true, run.quota) else entries;
    CachedResultsRoundTrip(searched, query, run.result.value, storeMs, t);
  }

  /**
   * `performSearch()` for the debounced query, with the clock read at
   * `lookupMs` for the cache lookup and at `storeMs` for the cache write, and
   * the network's answers to the search requests. The cache shares the
   * tracker's store.
   */
  method PerformSearch(state: SearchState, debouncedQuery: string, client: GitHubClient, lookupMs: int, storeMs: int,
                       repoReply: Fetch<GitHubRepo>, userReply: Fetch<GitHubUser>)
    returns (actions: seq<SearchAction>, next: SearchState)
    modifies client.tracker, client.tracker.storage
    ensures next == ReduceAll(state, actions)
    ensures var query := Trim(debouncedQuery);
      var hit := LookupCached(old(client.tracker.storage.entries), old(client.tracker.storage.available), query, lookupMs).results;
      var run := SearchGitHubRun(old(client.tracker.CurrentQuota()), client.CreateHeaders(), query, repoReply, userReply);
      && actions == SearchActions(query, hit, run.result)
      && (|query| < MinQueryLength ==> unchanged(client.tracker, client.tracker.storage))
      && (|query| >= MinQueryLength && hit.Some? ==> client.tracker.CurrentQuota() == old(client.tracker.CurrentQuota()))
      && (|query| >= MinQueryLength && hit.None? ==> client.tracker.CurrentQuota() == run.quota)
      && (|query| >= MinQueryLength && hit.None? && run.result.Ok? && client.tracker.storage.available ==>
            forall t :: t - storeMs <= CacheExpiration ==>
              LookupCached(client.tracker.storage.entries, true, query, t) == Lookup(Some(run.result.value), false))
      && client.tracker.storage.entries ==
           StepEntries(old(client.tracker.storage.entries), old(client.tracker.storage.available), query, lookupMs, storeMs, run)
      && client.tracker.delivered ==
           old(client.tracker.delivered)
           + if |query| >= MinQueryLength && hit.None? then Broadcasts(client.tracker.subscribers, run.notices) else []
    ensures client.tracker.storage.available == old(client.tracker.storage.available)
    ensures client.tracker.subscribers == old(client.tracker.subscribers)
    ensures client.tracker.intervalStarted == old(client.tracker.intervalStarted)
  {
    var query := Trim(debouncedQuery);
    if |query| < MinQueryLength {
      return [], state;
    }
    var cachedResults := GetCachedResults(client.tracker.storage, query, lookupMs);
    if cachedResults.Some? {
      actions := [SetResults(cachedResults.value)];
      ReduceAllOne(state, actions[0]);
      assert client.tracker.delivered == old(client.tracker.delivered) + [];
      return actions, Reduce(state, actions[0]);
    }
    actions, next := SearchAndCache(state, query, client, storeMs, repoReply, userReply);
  }

  /** The part of `performSearch()` after a cache miss. */
  method SearchAndCache(state: SearchState, query: string, client: GitHubClient, storeMs: int,
                        repoReply: Fetch<GitHubRepo>, userReply: Fetch<GitHubUser>)
    returns (actions: seq<SearchAction>, next: SearchState)
    requires |query| >= MinQueryLength
    modifies client.tracker, client.tracker.storage
    ensures next == ReduceAll(state, actions)
    ensures var run := SearchGitHubRun(old(client.tracker.CurrentQuota()), client.CreateHeaders(), query, repoReply, userReply);
      && actions == SearchActions(query, None, run.result)
      && client.tracker.CurrentQuota() == run.quota
      && (run.result.Ok? && client.tracker.storage.available ==>
            forall t :: t - storeMs <= CacheExpiration ==>
              LookupCached(client.tracker.storage.entries, true, query, t) == Lookup(Some(run.result.value), false))
      && client.tracker.storage.entries ==
           MissEntries(old(client.tracker.storage.entries), old(client.tracker.storage.available), query, storeMs, run)
      && client.tracker.delivered == old(client.tracker.delivered) + Broadcasts(client.tracker.subscribers, run.notices)
    ensures client.tracker.storage.available == old(client.tracker.storage.available)
    ensures client.tracker.subscribers == old(client.tracker.subscribers)
    ensures client.tracker.intervalStarted == old(client.tracker.intervalStarted)
  {
    ghost var run := SearchGitHubRun(client.tracker.CurrentQuota(), client.CreateHeaders(), query, repoReply, userReply);
    var results, _ := client.SearchGitHub(query, repoReply, userReply);
    var store := client.tracker.storage;
    if results.Ok? {
      actions := [SetLoading(true), SetResults(results.value)];
      CacheResults(store, query, results.value, storeMs);
      forall t | t - storeMs <= CacheExpiration
        ensures store.available ==> LookupCached(store.entries, true, query, t) == Lookup(Some(results.value), false)
      {
        if store.available {
          MissCachesResults(old(store.entries), query, storeMs, run, t);
        }
      }
    } else {
      actions := [SetLoading(true), SetError(Some(ErrorText(results.error)))];
    }
    ReduceAllTwo(state, actions[0], actions[1]);
    next := Reduce(Reduce(state, actions[0]), actions[1]);
  }
}
