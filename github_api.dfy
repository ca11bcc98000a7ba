/**
 * The search client of `src/services/githubApi.ts`: the guarded user and
 * repository searches and `searchGitHub`, which merges repositories, their
 * owners and (sometimes) a direct user search into at most 50 result items,
 * and falls back to the static catalogue on failure.
 *
 * The network is not modelled: every request is answered by a `Fetch` value
 * the caller supplies, and each method reports the requests it sent.
 */
module GitHubApi {
  import opened Wrappers
  import opened Strings
  import opened Types
  import opened Storage
  import opened RateLimit
  import Cache

  // ---------------------------------------------------------------------
  // Requests and replies
  // ---------------------------------------------------------------------

  /** The three search URLs the client requests (the ranked one sorts by stars, 40 per page). */
  datatype Endpoint = UserSearch | RepositorySearch | RankedRepositorySearch

  /** `createHeaders()`. */
  datatype Headers = Headers(accept: string, authorization: Option<string>)

  /** One request: the endpoint, the `q` parameter before URL encoding, and the headers. */
  datatype Request = Request(endpoint: Endpoint, q: string, headers: Headers)

  /** The reply body: JSON with an optional `message` and optional `items`, or text that is not JSON. */
  datatype Body<T> = Json(message: Option<string>, items: Option<seq<T>>) | NotJson(parseError: string)

  /** What the network does with a request. */
  datatype Fetch<T> =
    | NetworkFailure(message: string)
    | Reply(meta: ResponseMeta, status: nat, body: Body<T>)

  /** `response.ok`. */
  predicate IsOk(status: nat) {
    200 <= status <= 299
  }

  const UsersErrorPrefix := "Error fetching users: "
  const ReposErrorPrefix := "Error fetching repositories: "
  const SearchErrorPrefix := "Error fetching search results: "

  /** The error a 2xx reply without `items` ends in once its items are read. */
  const MissingItemsError := "Cannot read properties of undefined (reading 'map')"

  /** `errorData.message || \`<prefix><status>\``: an empty message counts as absent. */
  function FailureText(message: Option<string>, prefix: string, status: nat): (r: string)
    ensures message.Some? && message.value != "" ==> r == message.value
    ensures message.None? || message.value == "" ==> r == prefix + NatToString(status)
  {
    if message.Some? && message.value != "" then message.value else prefix + NatToString(status)
  }

  /**
   * The tracker state and the outcome after one request was sent, and the
   * snapshots the tracker broadcast to its subscribers on the way, in order.
   */
  datatype Attempted<T> = Attempted(quota: Quota, result: Result<seq<T>>, notices: seq<RateLimitInfo>)

  /**
   * The body of the `try` around a request: the reply's quota headers are
   * read first; a reply that is not 2xx fails with the provider's message
   * (latching the tracker when it is a rate-limit message); a 2xx JSON reply
   * yields its items. Reading the headers notifies the subscribers once, and
   * latching notifies them again.
   */
  function Attempt<T>(q: Quota, reply: Fetch<T>, prefix: string): (r: Attempted<T>)
    ensures reply.NetworkFailure? ==> r == Attempted(q, Err(reply.message), [])
    ensures reply.Reply? && (!IsOk(reply.status) || reply.body.NotJson?) ==> r.result.Err?
    ensures reply.Reply? && !IsOk(reply.status) && reply.body.Json? ==>
      var m := FailureText(reply.body.message, prefix, reply.status);
      var q1 := AfterResponse(q, reply.meta);
      && r.result == Err(m)
      && r.quota == (if IsRateLimitError(m) then AfterSetExceeded(q1, true) else q1)
      && r.notices == [q1.info] + (if IsRateLimitError(m) then [r.quota.info] else [])
    ensures reply.Reply? && (IsOk(reply.status) || reply.body.NotJson?) ==>
      r.quota == AfterResponse(q, reply.meta) && r.notices == [r.quota.info]
    ensures r.result.Ok? <==> reply.Reply? && IsOk(reply.status) && reply.body.Json? && reply.body.items.Some?
    ensures r.result.Ok? ==> r.result.value == reply.body.items.value
    ensures r.notices == [] ==> r.quota == q
    ensures r.notices != [] ==> r.notices[|r.notices| - 1] == r.quota.info
  {
    match reply
    case NetworkFailure(m) => Attempted(q, Err(m), [])
    case Reply(meta, status, body) =>
      var q1 := AfterResponse(q, meta);
      if !IsOk(status) then
        match body
        case NotJson(e) => Attempted(q1, Err(e), [q1.info])
        case Json(message, _) =>
          var m := FailureText(message, prefix, status);
          if IsRateLimitError(m) then
            var q2 := AfterSetExceeded(q1, true);
            Attempted(q2, Err(m), [q1.info, q2.info])
          else Attempted(q1, Err(m), [q1.info])
      else
        match body
        case NotJson(e) => Attempted(q1, Err(e), [q1.info])
        case Json(_, None) => Attempted(q1, Err(MissingItemsError), [q1.info])
        case Json(_, Some(items)) => Attempted(q1, Ok(items), [q1.info])
  }

  /** The `catch` that rethrows: a rate-limit message latches the tracker first. */
  function Caught<T>(q: Quota, r: Result<T>): (c: Quota)
    ensures r.Err? && IsRateLimitError(r.error) ==> Exceeded(c) && c.latch && c.info.remaining == 0
    ensures !(r.Err? && IsRateLimitError(r.error)) ==> c == q
  {
    if r.Err? && IsRateLimitError(r.error) then AfterSetExceeded(q, true) else q
  }

  /** The notification the latching `catch` makes: one snapshot when it latches, none otherwise. */
  function CaughtNotices<T>(q: Quota, r: Result<T>): (n: seq<RateLimitInfo>)
    ensures |n| <= 1
    ensures n != [] <==> r.Err? && IsRateLimitError(r.error)
    ensures n != [] ==> n[0] == Caught(q, r).info
    ensures n == [] ==> Caught(q, r) == q
  {
    if r.Err? && IsRateLimitError(r.error) then [Caught(q, r).info] else []
  }

  /** `searchUsers` / `searchRepos`: blocked without a request while exceeded. */
  function GuardedSearch<T>(q: Quota, reply: Fetch<T>, prefix: string): (r: Attempted<T>)
    ensures Exceeded(q) ==> r == Attempted(q, Err(RateLimitMessage), [])
    ensures !Exceeded(q) ==>
      var a := Attempt(q, reply, prefix);
      && r.result == a.result
      && r.quota == Caught(a.quota, r.result)
      && r.notices == a.notices + CaughtNotices(a.quota, a.result)
    ensures r.result.Err? && IsRateLimitError(r.result.error) ==> Exceeded(r.quota)
    ensures r.notices == [] ==> r.quota == q
    ensures r.notices != [] ==> r.notices[|r.notices| - 1] == r.quota.info
  {
    if Exceeded(q) then Attempted(q, Err(RateLimitMessage), [])
    else
      var a := Attempt(q, reply, prefix);
      Attempted(Caught(a.quota, a.result), a.result, a.notices + CaughtNotices(a.quota, a.result))
  }

  /** A request is blocked exactly while the tracker is exceeded, and a blocked one reports the rate-limit message. */
  lemma BlockedWhileExceeded<T>(q: Quota, reply: Fetch<T>, prefix: string)
    requires Exceeded(q)
    ensures GuardedSearch(q, reply, prefix).result == Err(RateLimitMessage)
    ensures IsRateLimitError(GuardedSearch(q, reply, prefix).result.error)
  {
    RateLimitMessagesClassify();
  }

  /** A 403 whose message is the provider's rate-limit text leaves the tracker exceeded and latched. */
  lemma ProviderRateLimitLatches<T>(q: Quota, meta: ResponseMeta, items: Option<seq<T>>, prefix: string)
    requires !Exceeded(q)
    ensures var r := GuardedSearch(q, Reply(meta, 403, Json(Some(ProviderRateLimitMessage), items)), prefix);
      r.result == Err(ProviderRateLimitMessage) && r.quota.latch && Exceeded(r.quota)
  {
    RateLimitMessagesClassify();
  }

  // ---------------------------------------------------------------------
  // Result items
  // ---------------------------------------------------------------------

  /** One repository as a result item. */
  function RepoItem(repo: GitHubRepo): ResultItem {
    ResultItem("repo-" + NatToString(repo.id), repo.name, Repository, repo.htmlUrl, repo.owner.avatarUrl, repo.description)
  }

  /** A repository owner as a result item. */
  function OwnerItem(owner: RepoOwner): ResultItem {
    ResultItem("user-" + NatToString(owner.id), owner.login, User, owner.htmlUrl, owner.avatarUrl, None)
  }

  /** A user of the user search as a result item. */
  function UserItem(user: GitHubUser): ResultItem {
    ResultItem("user-" + NatToString(user.id), user.login, User, user.htmlUrl, user.avatarUrl, None)
  }

  /** `createRepoResults(repos)`: one repository item per repository, in order. */
  function CreateRepoResults(repos: seq<GitHubRepo>): (r: seq<ResultItem>)
    ensures |r| == |repos|
    ensures forall i :: 0 <= i < |r| ==> r[i] == RepoItem(repos[i])
    ensures forall i :: 0 <= i < |r| ==>
      && r[i].kind == Repository && r[i].name == repos[i].name
      && r[i].id == "repo-" + NatToString(repos[i].id) && r[i].url == repos[i].htmlUrl
      && r[i].avatarUrl == repos[i].owner.avatarUrl && r[i].description == repos[i].description
  {
    seq(|repos|, i requires 0 <= i < |repos| => RepoItem(repos[i]))
  }

  /** The `usersResponse.items.map(...)` of the user search. */
  function UserItems(users: seq<GitHubUser>): (r: seq<ResultItem>)
    ensures |r| == |users|
    ensures forall i :: 0 <= i < |r| ==> r[i] == UserItem(users[i]) && r[i].kind == User
  {
    seq(|users|, i requires 0 <= i < |users| => UserItem(users[i]))
  }

  /** The names of a list of items. */
  function Names(items: seq<ResultItem>): set<string> {
    set i | 0 <= i < |items| :: items[i].name
  }

  lemma NamesAppend(items: seq<ResultItem>, x: ResultItem)
    ensures Names(items + [x]) == Names(items) + {x.name}
  {
    var s := items + [x];
    assert s[|items|] == x;
    forall n | n in Names(items) ensures n in Names(s) {
      var i :| 0 <= i < |items| && items[i].name == n;
      assert s[i] == items[i];
    }
  }

  /**
   * The values of `ownerMap` after the `forEach` over the repositories: one
   * user item per distinct owner login, the first occurrence winning, in the
   * order the logins first appear.
   */
  function OwnerUsers(repos: seq<GitHubRepo>): seq<ResultItem>
    decreases |repos|
  {
    if repos == [] then []
    else
      var prev := OwnerUsers(repos[..|repos| - 1]);
      var owner := repos[|repos| - 1].owner;
      if owner.login in Names(prev) then prev else prev + [OwnerItem(owner)]
  }

  /** Some repository in `repos` is owned by `login`. */
  ghost predicate HasOwner(repos: seq<GitHubRepo>, login: string) {
    exists k :: 0 <= k < |repos| && repos[k].owner.login == login
  }

  lemma HasOwnerInit(repos: seq<GitHubRepo>, login: string)
    requires repos != []
    ensures HasOwner(repos, login) <==>
      HasOwner(repos[..|repos| - 1], login) || repos[|repos| - 1].owner.login == login
  {
    var n := |repos| - 1;
    if HasOwner(repos, login) && repos[n].owner.login != login {
      var k :| 0 <= k < |repos| && repos[k].owner.login == login;
      assert repos[..n][k].owner.login == login;
    }
    if HasOwner(repos[..n], login) {
      var k :| 0 <= k < n && repos[..n][k].owner.login == login;
      assert repos[k].owner.login == login;
    }
  }

  /** The login of repository `k`'s owner does not appear before position `k`. */
  ghost predicate FirstOwnerAt(repos: seq<GitHubRepo>, k: int) {
    0 <= k < |repos| && !HasOwner(repos[..k], repos[k].owner.login)
  }

  /** The owner users carry exactly the owner logins of the repositories. */
  lemma {:induction false} OwnerUsersNames(repos: seq<GitHubRepo>)
    ensures forall login :: login in Names(OwnerUsers(repos)) <==> HasOwner(repos, login)
    decreases |repos|
  {
    if repos != [] {
      var n := |repos| - 1;
      var prev := OwnerUsers(repos[..n]);
      OwnerUsersNames(repos[..n]);
      if repos[n].owner.login !in Names(prev) {
        NamesAppend(prev, OwnerItem(repos[n].owner));
      }
      forall login ensures login in Names(OwnerUsers(repos)) <==> HasOwner(repos, login) {
        HasOwnerInit(repos, login);
      }
    }
  }

  /** No login appears twice among the owner users. */
  lemma {:induction false} OwnerUsersDistinct(repos: seq<GitHubRepo>)
    ensures forall a, b :: 0 <= a < b < |OwnerUsers(repos)| ==> OwnerUsers(repos)[a].name != OwnerUsers(repos)[b].name
    decreases |repos|
  {
    if repos != [] {
      var n := |repos| - 1;
      var prev := OwnerUsers(repos[..n]);
      OwnerUsersDistinct(repos[..n]);
      var r := OwnerUsers(repos);
      if repos[n].owner.login !in Names(prev) {
        forall a, b | 0 <= a < b < |r| ensures r[a].name != r[b].name {
          assert r[a] == prev[a];
          if b == |prev| {
            assert r[a].name in Names(prev);
          } else {
            assert r[b] == prev[b];
          }
        }
      }
    }
  }

  /** Every owner user is built from the first repository of its owner. */
  lemma {:induction false} OwnerUsersFirstWins(repos: seq<GitHubRepo>)
    ensures forall a :: 0 <= a < |OwnerUsers(repos)| ==>
      exists k :: FirstOwnerAt(repos, k) && OwnerUsers(repos)[a] == OwnerItem(repos[k].owner)
    decreases |repos|
  {
    if repos != [] {
      var n := |repos| - 1;
      var init := repos[..n];
      var prev := OwnerUsers(init);
      OwnerUsersFirstWins(init);
      var r := OwnerUsers(repos);
      forall a | 0 <= a < |r| ensures exists k :: FirstOwnerAt(repos, k) && r[a] == OwnerItem(repos[k].owner) {
        if a < |prev| {
          assert r[a] == prev[a];
          var k :| FirstOwnerAt(init, k) && prev[a] == OwnerItem(init[k].owner);
          assert init[..k] == repos[..k];
          assert init[k] == repos[k];
          assert FirstOwnerAt(repos, k);
        } else {
          OwnerUsersNames(init);
          assert repos[n].owner.login !in Names(prev);
          assert r[a] == OwnerItem(repos[n].owner);
          assert repos[..n] == init;
          assert FirstOwnerAt(repos, n);
        }
      }
      assert forall a :: 0 <= a < |r| ==> exists k :: FirstOwnerAt(repos, k) && r[a] == OwnerItem(repos[k].owner);
    } else {
      assert OwnerUsers(repos) == [];
    }
  }

  /** The owner users come in the order their logins first appear among the repositories. */
  lemma {:induction false} OwnerUsersOrdered(repos: seq<GitHubRepo>)
    ensures forall a, b, k ::
      (0 <= a < b < |OwnerUsers(repos)| && FirstOwnerAt(repos, k) && repos[k].owner.login == OwnerUsers(repos)[b].name)
      ==> HasOwner(repos[..k], OwnerUsers(repos)[a].name)
    decreases |repos|
  {
    if repos != [] {
      var n := |repos| - 1;
      var init := repos[..n];
      var prev := OwnerUsers(init);
      OwnerUsersOrdered(init);
      OwnerUsersNames(init);
      var r := OwnerUsers(repos);
      forall a, b, k | 0 <= a < b < |r| && FirstOwnerAt(repos, k) && repos[k].owner.login == r[b].name
        ensures HasOwner(repos[..k], r[a].name)
      {
        assert r[a] == prev[a];
        assert prev[a].name in Names(prev);
        if k == n {
          assert repos[..k] == init;
        } else {
          assert init[..k] == repos[..k];
          assert FirstOwnerAt(init, k);
          if b < |prev| {
            assert r[b] == prev[b];
          }
        }
      }
    }
  }

  /** Owner users are user items. */
  lemma {:induction false} OwnerUsersAreUsers(repos: seq<GitHubRepo>)
    ensures forall x :: x in OwnerUsers(repos) ==> x.kind == User
    decreases |repos|
  {
    if repos != [] {
      OwnerUsersAreUsers(repos[..|repos| - 1]);
    }
  }

  /** The users whose name is not among `known`, in order (the `forEach` that pushes direct users). */
  function DropKnown(users: seq<ResultItem>, known: set<string>): (r: seq<ResultItem>)
    ensures |r| <= |users|
    ensures forall x :: x in r <==> x in users && x.name !in known
    decreases |users|
  {
    if users == [] then []
    else
      var last := users[|users| - 1];
      var init := users[..|users| - 1];
      assert users == init + [last];
      DropKnown(init, known) + (if last.name in known then [] else [last])
  }

  /** `.slice(0, 50)`. */
  function Cap(items: seq<ResultItem>): (r: seq<ResultItem>)
    ensures |r| <= 50 && |r| <= |items|
    ensures r == items[..|r|]
    ensures |items| <= 50 ==> r == items
    ensures |items| > 50 ==> |r| == 50
  {
    if |items| <= 50 then items else items[..50]
  }

  /** `repoResults.length < 8 || query.length < 4`. */
  predicate NeedsUserSearch(repoCount: nat, query: string) {
    repoCount < 8 || |query| < 4
  }

  /** `configureGitHubApi`: 30 requests for a (non-empty) token, 10 without. */
  function TokenLimit(token: Option<string>): int {
    if token.Some? && token.value != "" then 30 else 10
  }

  /** `createHeaders()` for the stored token. */
  function HeadersFor(token: Option<string>): (h: Headers)
    ensures h.accept == "application/vnd.github.v3+json"
    ensures h.authorization.Some? <==> token.Some? && token.value != ""
    ensures h.authorization.Some? ==> h.authorization.value == "token " + token.value
  {
    Headers("application/vnd.github.v3+json",
      if token.Some? && token.value != "" then Some("token " + token.value) else None)
  }

  /** `[...repoResults, ...userResults].slice(0, 50)`. */
  function MergeResults(repos: seq<GitHubRepo>, users: seq<ResultItem>): seq<ResultItem> {
    Cap(CreateRepoResults(repos) + users)
  }

  /**
   * The merged list holds at most 50 items: the repositories first, in order,
   * then users only; when everything fits nothing is cut.
   */
  lemma MergeResultsShape(repos: seq<GitHubRepo>, users: seq<ResultItem>)
    requires forall x :: x in users ==> x.kind == User
    ensures |MergeResults(repos, users)| <= 50
    ensures forall i :: 0 <= i < |MergeResults(repos, users)| && i < |repos| ==> MergeResults(repos, users)[i] == RepoItem(repos[i])
    ensures forall i :: |repos| <= i < |MergeResults(repos, users)| ==> MergeResults(repos, users)[i].kind == User
    ensures |repos| + |users| <= 50 ==> MergeResults(repos, users) == CreateRepoResults(repos) + users
  {
    var all := CreateRepoResults(repos) + users;
    var r := MergeResults(repos, users);
    forall i | |repos| <= i < |r| ensures r[i].kind == User {
      assert r[i] == all[i] == users[i - |repos|];
      assert users[i - |repos|] in users;
    }
    forall i | 0 <= i < |r| && i < |repos| ensures r[i] == RepoItem(repos[i]) {
      assert r[i] == all[i];
    }
  }

  /** The owners followed by the direct users whose login is not an owner's, when the user search succeeded. */
  function WithDirectUsers(owners: seq<ResultItem>, users: Result<seq<GitHubUser>>): seq<ResultItem> {
    if users.Ok? then owners + DropKnown(UserItems(users.value), Names(owners)) else owners
  }

  /** The user part of a live search holds user items only, and never repeats an owner login from the direct search. */
  lemma WithDirectUsersShape(repos: seq<GitHubRepo>, users: Result<seq<GitHubUser>>)
    ensures forall x :: x in WithDirectUsers(OwnerUsers(repos), users) ==> x.kind == User
    ensures forall i :: |OwnerUsers(repos)| <= i < |WithDirectUsers(OwnerUsers(repos), users)| ==>
      !HasOwner(repos, WithDirectUsers(OwnerUsers(repos), users)[i].name)
  {
    var owners := OwnerUsers(repos);
    OwnerUsersAreUsers(repos);
    OwnerUsersNames(repos);
    var w := WithDirectUsers(owners, users);
    forall x | x in w ensures x.kind == User {
      if x !in owners {
        var d := UserItems(users.value);
        var j :| 0 <= j < |d| && d[j] == x;
      }
    }
    forall i | |owners| <= i < |w| ensures !HasOwner(repos, w[i].name) {
      var d := DropKnown(UserItems(users.value), Names(owners));
      assert w[i] == d[i - |owners|];
      assert d[i - |owners|] in d;
    }
  }

  /**
   * What `searchGitHub` leaves in the tracker, returns and sends, whether it
   * saved the tracker's state, and the snapshots it broadcast, in order.
   */
  datatype SearchRun = SearchRun(quota: Quota, result: Result<seq<ResultItem>>, requests: seq<Request>, saved: bool,
                                 notices: seq<RateLimitInfo>)

  /** `searchGitHub(query)`, starting from tracker state `q`. */
  function SearchGitHubRun(q: Quota, headers: Headers, query: string,
                           repoReply: Fetch<GitHubRepo>, userReply: Fetch<GitHubUser>): SearchRun
  {
    if Exceeded(q) then
      var fallback := Cache.GetFallbackResults(query);
      if |fallback| > 0 then SearchRun(q, Ok(fallback), [], false, [])
      else
        var e: Result<seq<ResultItem>> := Err(RateLimitMessage);
        SearchRun(Caught(q, e), e, [], true, CaughtNotices(q, e))
    else
      var repoRequest := Request(RankedRepositorySearch, Trim(query), headers);
      var a := Attempt(q, repoReply, SearchErrorPrefix);
      match a.result
      case Err(m) =>
        var fallback := Cache.GetFallbackResults(query);
        if |fallback| > 0 then SearchRun(a.quota, Ok(fallback), [repoRequest], repoReply.Reply?, a.notices)
        else SearchRun(Caught(a.quota, a.result), Err(m), [repoRequest], repoReply.Reply? || IsRateLimitError(m),
                       a.notices + CaughtNotices(a.quota, a.result))
      case Ok(repos) =>
        var owners := OwnerUsers(repos);
        if NeedsUserSearch(|repos|, query) then
          var u := GuardedSearch(a.quota, userReply, UsersErrorPrefix);
          var userRequests := if Exceeded(a.quota) then [] else [Request(UserSearch, query, headers)];
          SearchRun(u.quota, Ok(MergeResults(repos, WithDirectUsers(owners, u.result))), [repoRequest] + userRequests, true,
                    a.notices + u.notices)
        else
          SearchRun(a.quota, Ok(MergeResults(repos, owners)), [repoRequest], true, a.notices)
  }

  /**
   * Subscribers are never left with a stale snapshot: when `searchGitHub`
   * broadcast anything, the last snapshot is the tracker's final state.
   */
  lemma SubscribersSeeFinalQuota(q: Quota, headers: Headers, query: string,
                                 repoReply: Fetch<GitHubRepo>, userReply: Fetch<GitHubUser>)
    ensures var run := SearchGitHubRun(q, headers, query, repoReply, userReply);
      run.notices != [] ==> run.notices[|run.notices| - 1] == run.quota.info
  {
    if !Exceeded(q) {
      if Attempt(q, repoReply, SearchErrorPrefix).result.Err? {
        FinalQuotaAfterFailure(q, headers, query, repoReply, userReply);
      } else {
        FinalQuotaAfterSuccess(q, headers, query, repoReply, userReply);
      }
    }
  }

  lemma FinalQuotaAfterFailure(q: Quota, headers: Headers, query: string,
                               repoReply: Fetch<GitHubRepo>, userReply: Fetch<GitHubUser>)
    requires !Exceeded(q) && Attempt(q, repoReply, SearchErrorPrefix).result.Err?
    ensures var run := SearchGitHubRun(q, headers, query, repoReply, userReply);
      run.notices != [] ==> run.notices[|run.notices| - 1] == run.quota.info
  {
    var a := Attempt(q, repoReply, SearchErrorPrefix);
    LastOfJoin(a.notices, CaughtNotices(a.quota, a.result));
  }

  lemma FinalQuotaAfterSuccess(q: Quota, headers: Headers, query: string,
                               repoReply: Fetch<GitHubRepo>, userReply: Fetch<GitHubUser>)
    requires !Exceeded(q) && Attempt(q, repoReply, SearchErrorPrefix).result.Ok?
    ensures var run := SearchGitHubRun(q, headers, query, repoReply, userReply);
      run.notices != [] ==> run.notices[|run.notices| - 1] == run.quota.info
  {
    var a := Attempt(q, repoReply, SearchErrorPrefix);
    LastOfJoin(a.notices, GuardedSearch(a.quota, userReply, UsersErrorPrefix).notices);
  }

  /**
   * When `searchGitHub` broadcast nothing the tracker did not change; the one
   * broadcast-free path that sends a request is a network failure.
   */
  lemma SilentSearchKeepsQuota(q: Quota, headers: Headers, query: string,
                               repoReply: Fetch<GitHubRepo>, userReply: Fetch<GitHubUser>)
    ensures var run := SearchGitHubRun(q, headers, query, repoReply, userReply);
      && (run.notices == [] ==> run.quota == q)
      && (run.requests != [] && run.notices == [] ==> repoReply.NetworkFailure?)
  {
    RateLimitMessagesClassify();
  }

  /** The last snapshot of two runs of notifications is the second run's last, or the first's when the second is empty. */
  lemma LastOfJoin(a: seq<RateLimitInfo>, b: seq<RateLimitInfo>)
    ensures b != [] ==> (a + b)[|a + b| - 1] == b[|b| - 1]
    ensures b == [] ==> a + b == a
  {
  }

  /**
   * While the tracker is exceeded nothing is requested: a non-empty fallback
   * list is returned as is, otherwise the rate-limit error is raised and the
   * tracker is latched with no requests left.
   */
  lemma ExceededSearch(q: Quota, headers: Headers, query: string, repoReply: Fetch<GitHubRepo>, userReply: Fetch<GitHubUser>)
    requires Exceeded(q)
    ensures var run := SearchGitHubRun(q, headers, query, repoReply, userReply);
      && run.requests == []
      && (|Cache.GetFallbackResults(query)| > 0 ==> run.result == Ok(Cache.GetFallbackResults(query)) && run.quota == q)
      && (|Cache.GetFallbackResults(query)| == 0 ==>
            run.result == Err(RateLimitMessage) && run.quota.latch && run.quota.info.remaining == 0)
  {
    RateLimitMessagesClassify();
  }

  /**
   * When the repository request fails, a non-empty fallback list is the
   * answer; otherwise the failure is raised, and one phrased as a rate-limit
   * error leaves the tracker latched.
   */
  lemma FailedSearchFallsBack(q: Quota, headers: Headers, query: string, repoReply: Fetch<GitHubRepo>, userReply: Fetch<GitHubUser>)
    requires !Exceeded(q)
    requires Attempt(q, repoReply, SearchErrorPrefix).result.Err?
    ensures var run := SearchGitHubRun(q, headers, query, repoReply, userReply);
      var m := Attempt(q, repoReply, SearchErrorPrefix).result.error;
      && run.requests == [Request(RankedRepositorySearch, Trim(query), headers)]
      && (|Cache.GetFallbackResults(query)| > 0 ==> run.result == Ok(Cache.GetFallbackResults(query)))
      && (|Cache.GetFallbackResults(query)| == 0 ==> run.result == Err(m))
      && (|Cache.GetFallbackResults(query)| == 0 && IsRateLimitError(m) ==> run.quota.latch)
  {
  }

  /**
   * A live search returns at most 50 items: the repositories first, in the
   * provider's order, then user items only. The user request is sent exactly
   * when fewer than 8 repositories came back or the query is shorter than 4
   * characters (and the tracker still allows it).
   */
  lemma LiveSearchShape(q: Quota, headers: Headers, query: string, repoReply: Fetch<GitHubRepo>, userReply: Fetch<GitHubUser>)
    requires !Exceeded(q)
    requires Attempt(q, repoReply, SearchErrorPrefix).result.Ok?
    ensures var run := SearchGitHubRun(q, headers, query, repoReply, userReply);
      var repos := Attempt(q, repoReply, SearchErrorPrefix).result.value;
      && run.result.Ok?
      && |run.result.value| <= 50
      && (forall i :: 0 <= i < |run.result.value| && i < |repos| ==> run.result.value[i] == RepoItem(repos[i]))
      && (forall i :: |repos| <= i < |run.result.value| ==> run.result.value[i].kind == User)
      && (|run.requests| == 2 <==> NeedsUserSearch(|repos|, query) && !Exceeded(Attempt(q, repoReply, SearchErrorPrefix).quota))
      && run.requests[0] == Request(RankedRepositorySearch, Trim(query), headers)
  {
    var a := Attempt(q, repoReply, SearchErrorPrefix);
    var repos := a.result.value;
    WithDirectUsersShape(repos, GuardedSearch(a.quota, userReply, UsersErrorPrefix).result);
    OwnerUsersAreUsers(repos);
    MergeResultsShape(repos, WithDirectUsers(OwnerUsers(repos), GuardedSearch(a.quota, userReply, UsersErrorPrefix).result));
    MergeResultsShape(repos, OwnerUsers(repos));
  }

  /**
   * The 'test' scenario of the mock provider: two repositories owned by two
   * users, and a user search returning those same two users. The merged list
   * is the two repositories followed by the two owners, with no duplicate.
   */
  lemma TestQueryScenario(q: Quota, headers: Headers, meta: ResponseMeta)
    requires !Exceeded(q) && !HasQuotaHeaders(meta) && q.info.remaining > 1
    ensures SearchGitHubRun(q, headers, "test", Reply(meta, 200, Json(None, Some(TestRepos))), Reply(meta, 200, Json(None, Some(TestUsers)))).result
      == Ok(TestMerged)
  {
    var a := Attempt(q, Reply(meta, 200, Json(None, Some(TestRepos))), SearchErrorPrefix);
    assert a.result == Ok(TestRepos);
    assert !Exceeded(a.quota);
    assert NeedsUserSearch(|TestRepos|, "test");
    var u := GuardedSearch(a.quota, Reply(meta, 200, Json(None, Some(TestUsers))), UsersErrorPrefix);
    assert u.result == Ok(TestUsers);
    TestMerge();
  }

  /** The merged list of the 'test' scenario: both repositories, then both owners. */
  const TestMerged: seq<ResultItem> := [
    ResultItem("repo-3", "testrepo", Repository, "https://github.com/testuser1/testrepo",
      "https://example.com/avatar1.png", Some("A test repository")),
    ResultItem("repo-4", "testing-lib", Repository, "https://github.com/testuser2/testing-lib",
      "https://example.com/avatar2.png", Some("A testing library")),
    ResultItem("user-1", "testuser1", User, "https://github.com/testuser1", "https://example.com/avatar1.png", None),
    ResultItem("user-2", "testuser2", User, "https://github.com/testuser2", "https://example.com/avatar2.png", None)
  ]

  /** The direct users of 'test' are both owners already, so the merge adds nobody after them. */
  lemma TestMerge()
    ensures MergeResults(TestRepos, WithDirectUsers(OwnerUsers(TestRepos), Ok(TestUsers))) == TestMerged
  {
    var owners := TestOwners();
    var direct := UserItems(TestUsers);
    assert direct[..1][..0] == [];
    assert direct[..|direct| - 1] == direct[..1];
    assert DropKnown(direct, Names(owners)) == [];
    assert NatToString(3) == "3" && NatToString(4) == "4";
    assert NatToString(1) == "1" && NatToString(2) == "2";
    assert RepoItem(TestRepos[0]) == TestMerged[0];
    assert RepoItem(TestRepos[1]) == TestMerged[1];
    assert OwnerItem(TestUser1) == TestMerged[2];
    assert OwnerItem(TestUser2) == TestMerged[3];
    assert CreateRepoResults(TestRepos) == TestMerged[..2];
    assert owners == TestMerged[2..];
  }

  /** The owners of the 'test' repositories. */
  lemma TestOwners() returns (owners: seq<ResultItem>)
    ensures owners == OwnerUsers(TestRepos)
    ensures owners == [OwnerItem(TestUser1), OwnerItem(TestUser2)]
    ensures Names(owners) == {"testuser1", "testuser2"}
  {
    var repos := TestRepos;
    assert repos[..1] == [repos[0]];
    assert repos[..1][..0] == [];
    assert OwnerUsers(repos[..0]) == [];
    assert Names([]) == {};
    assert OwnerUsers(repos[..1]) == [OwnerItem(TestUser1)];
    NamesAppend([], OwnerItem(TestUser1));
    assert [] + [OwnerItem(TestUser1)] == [OwnerItem(TestUser1)];
    assert repos[..|repos| - 1] == repos[..1];
    owners := OwnerUsers(repos);
    NamesAppend([OwnerItem(TestUser1)], OwnerItem(TestUser2));
    assert NatToString(1) == "1" && NatToString(2) == "2";
  }

  const TestUser1 := RepoOwner("testuser1", 1, "https://example.com/avatar1.png", "https://github.com/testuser1")
  const TestUser2 := RepoOwner("testuser2", 2, "https://example.com/avatar2.png", "https://github.com/testuser2")

  /** The mock provider's repositories for 'test'. */
  const TestRepos: seq<GitHubRepo> := [
    GitHubRepo(3, "testrepo", TestUser1, "https://github.com/testuser1/testrepo", Some("A test repository")),
    GitHubRepo(4, "testing-lib", TestUser2, "https://github.com/testuser2/testing-lib", Some("A testing library"))
  ]

  /** The mock provider's users for 'test'. */
  const TestUsers: seq<GitHubUser> := [
    GitHubUser("testuser1", 1, "https://example.com/avatar1.png", "https://github.com/testuser1"),
    GitHubUser("testuser2", 2, "https://example.com/avatar2.png", "https://github.com/testuser2")
  ]

  /** The `forEach` over the repositories that fills `ownerMap`. */
  method CollectOwners(repos: seq<GitHubRepo>) returns (owners: seq<ResultItem>, logins: set<string>)
    ensures owners == OwnerUsers(repos)
    ensures logins == Names(owners)
  {
    owners, logins := [], {};
    var i := 0;
    while i < |repos|
      invariant 0 <= i <= |repos|
      invariant owners == OwnerUsers(repos[..i])
      invariant logins == Names(owners)
    {
      assert repos[..i + 1][..i] == repos[..i];
      var owner := repos[i].owner;
      if owner.login !in logins {
        NamesAppend(owners, OwnerItem(owner));
        owners := owners + [OwnerItem(owner)];
        logins := logins + {owner.login};
      }
      i := i + 1;
    }
    assert repos[..i] == repos;
  }

  /** The `forEach` that pushes each direct user whose login is not an owner login. */
  method AppendDirectUsers(userResults: seq<ResultItem>, direct: seq<ResultItem>, ownerLogins: set<string>)
    returns (r: seq<ResultItem>)
    ensures r == userResults + DropKnown(direct, ownerLogins)
  {
    r := userResults;
    var j := 0;
    while j < |direct|
      invariant 0 <= j <= |direct|
      invariant r == userResults + DropKnown(direct[..j], ownerLogins)
    {
      assert direct[..j + 1][..j] == direct[..j];
      if direct[j].name !in ownerLogins {
        r := r + [direct[j]];
      }
      j := j + 1;
    }
    assert direct[..j] == direct;
  }

  // ---------------------------------------------------------------------
  // The client
  // ---------------------------------------------------------------------

  /** The module state of the client: the token and the shared tracker. */
  class GitHubClient {
    var authToken: Option<string>
    const tracker: RateLimitTracker

    constructor (tracker: RateLimitTracker)
      ensures this.tracker == tracker && authToken == None
    {
      this.tracker := tracker;
      authToken := None;
    }

    /** `createHeaders()`. */
    function CreateHeaders(): Headers
      reads this
    {
      HeadersFor(authToken)
    }

    /** The tracker keeps its subscribers and interval, and the store stays as available as it was. */
    twostate predicate TrackerKept()
      reads this, tracker, tracker.storage
    {
      && tracker.subscribers == old(tracker.subscribers)
      && tracker.intervalStarted == old(tracker.intervalStarted)
      && tracker.storage.available == old(tracker.storage.available)
    }

    /** The subscribers were called with exactly the snapshots `notices`, in order. */
    twostate predicate Announced(notices: seq<RateLimitInfo>)
      reads tracker
    {
      tracker.delivered == old(tracker.delivered) + Broadcasts(tracker.subscribers, notices)
    }

    /** The store holds the tracker's current state when `saved`, and is unchanged otherwise. */
    twostate predicate StoreSaved(saved: bool)
      reads tracker, tracker.storage
    {
      tracker.storage.entries ==
        if saved then Persisted(old(tracker.storage.entries), tracker.storage.available, tracker.CurrentQuota())
        else old(tracker.storage.entries)
    }

    /** `configureGitHubApi(token)`. */
    method ConfigureGitHubApi(token: Option<string>)
      modifies this, tracker, tracker.storage
      ensures authToken == token
      ensures tracker.CurrentQuota() ==
        Updated(old(tracker.CurrentQuota()), NoFields.(limit := Some(TokenLimit(token)), remaining := Some(TokenLimit(token))))
      ensures TrackerKept() && StoreSaved(true) && Announced([tracker.info])
    {
      authToken := token;
      var n := TokenLimit(token);
      tracker.UpdateRateLimitInfo(NoFields.(limit := Some(n), remaining := Some(n)));
    }

    /** A rate-limit message latches the tracker (the body of each `catch`). */
    method CatchRateLimit<T>(r: Result<T>)
      modifies tracker, tracker.storage
      ensures tracker.CurrentQuota() == Caught(old(tracker.CurrentQuota()), r)
      ensures TrackerKept() && StoreSaved(r.Err? && IsRateLimitError(r.error))
      ensures Announced(CaughtNotices(old(tracker.CurrentQuota()), r))
    {
      if r.Err? && IsRateLimitError(r.error) {
        tracker.SetRateLimitExceeded(true);
      }
    }

    /** The `try` body around one request, given the network's answer. */
    method Send<T>(reply: Fetch<T>, prefix: string) returns (r: Result<seq<T>>)
      modifies tracker, tracker.storage
      ensures tracker.CurrentQuota() == Attempt(old(tracker.CurrentQuota()), reply, prefix).quota
      ensures r == Attempt(old(tracker.CurrentQuota()), reply, prefix).result
      ensures TrackerKept() && StoreSaved(reply.Reply?)
      ensures Announced(Attempt(old(tracker.CurrentQuota()), reply, prefix).notices)
    {
      match reply
      case NetworkFailure(m) =>
        r := Err(m);
      case Reply(meta, status, body) =>
        r := Receive(meta, status, body, prefix);
    }

    /** `Send` once a reply arrived: its headers are read first, then its status and body. */
    method Receive<T>(meta: ResponseMeta, status: nat, body: Body<T>, prefix: string) returns (r: Result<seq<T>>)
      modifies tracker, tracker.storage
      ensures var a := Attempt(old(tracker.CurrentQuota()), Reply(meta, status, body), prefix);
        && tracker.CurrentQuota() == a.quota && r == a.result
        && TrackerKept() && StoreSaved(true) && Announced(a.notices)
    {
      ghost var a := Attempt(tracker.CurrentQuota(), Reply(meta, status, body), prefix);
      tracker.ExtractRateLimitInfo(meta);
      ghost var n1 := [tracker.info];
      DeliveredSnoc(old(tracker.delivered), tracker.subscribers, [], tracker.info);
      assert [] + [tracker.info] == n1;
      if !IsOk(status) && body.Json? {
        var errorMessage := FailureText(body.message, prefix, status);
        if IsRateLimitError(errorMessage) {
          ghost var q1 := tracker.CurrentQuota();
          tracker.SetRateLimitExceeded(true);
          PersistedTwice(old(tracker.storage.entries), tracker.storage.available, q1, tracker.CurrentQuota());
          DeliveredSnoc(old(tracker.delivered), tracker.subscribers, n1, tracker.info);
          assert a.notices == n1 + [tracker.info];
        } else {
          assert a.notices == n1;
        }
        r := Err(errorMessage);
      } else {
        assert a.notices == n1;
        if body.NotJson? {
          r := Err(body.parseError);
        } else {
          r := if body.items.Some? then Ok(body.items.value) else Err(MissingItemsError);
        }
      }
    }

    /** `searchUsers` and `searchRepos`: the guard, the request, and the rethrowing `catch`. */
    method Search<T>(endpoint: Endpoint, query: string, reply: Fetch<T>, prefix: string)
      returns (r: Result<seq<T>>, sent: seq<Request>)
      modifies tracker, tracker.storage
      ensures tracker.CurrentQuota() == GuardedSearch(old(tracker.CurrentQuota()), reply, prefix).quota
      ensures r == GuardedSearch(old(tracker.CurrentQuota()), reply, prefix).result
      ensures sent == if Exceeded(old(tracker.CurrentQuota())) then [] else [Request(endpoint, query, CreateHeaders())]
      ensures TrackerKept()
      ensures StoreSaved(!Exceeded(old(tracker.CurrentQuota())) && (reply.Reply? || (r.Err? && IsRateLimitError(r.error))))
      ensures Announced(GuardedSearch(old(tracker.CurrentQuota()), reply, prefix).notices)
    {
      if tracker.IsExceeded() {
        return Err(RateLimitMessage), [];
      }
      sent := [Request(endpoint, query, CreateHeaders())];
      r := Send(reply, prefix);
      ghost var q1 := tracker.CurrentQuota();
      CatchRateLimit(r);
      PersistedTwice(old(tracker.storage.entries), tracker.storage.available, q1, tracker.CurrentQuota());
      DeliveredAppend(old(tracker.delivered), tracker.subscribers,
        Attempt(old(tracker.CurrentQuota()), reply, prefix).notices, CaughtNotices(q1, r));
    }

    /** `searchUsers(query)`. */
    method SearchUsers(query: string, reply: Fetch<GitHubUser>) returns (r: Result<seq<GitHubUser>>, sent: seq<Request>)
      modifies tracker, tracker.storage
      ensures tracker.CurrentQuota() == GuardedSearch(old(tracker.CurrentQuota()), reply, UsersErrorPrefix).quota
      ensures r == GuardedSearch(old(tracker.CurrentQuota()), reply, UsersErrorPrefix).result
      ensures sent == if Exceeded(old(tracker.CurrentQuota())) then [] else [Request(UserSearch, query, CreateHeaders())]
      ensures TrackerKept()
      ensures StoreSaved(!Exceeded(old(tracker.CurrentQuota())) && (reply.Reply? || (r.Err? && IsRateLimitError(r.error))))
      ensures Announced(GuardedSearch(old(tracker.CurrentQuota()), reply, UsersErrorPrefix).notices)
    {
      r, sent := Search(UserSearch, query, reply, UsersErrorPrefix);
    }

    /** `searchRepos(query)`. */
    method SearchRepos(query: string, reply: Fetch<GitHubRepo>) returns (r: Result<seq<GitHubRepo>>, sent: seq<Request>)
      modifies tracker, tracker.storage
      ensures tracker.CurrentQuota() == GuardedSearch(old(tracker.CurrentQuota()), reply, ReposErrorPrefix).quota
      ensures r == GuardedSearch(old(tracker.CurrentQuota()), reply, ReposErrorPrefix).result
      ensures sent == if Exceeded(old(tracker.CurrentQuota())) then [] else [Request(RepositorySearch, query, CreateHeaders())]
      ensures TrackerKept()
      ensures StoreSaved(!Exceeded(old(tracker.CurrentQuota())) && (reply.Reply? || (r.Err? && IsRateLimitError(r.error))))
      ensures Announced(GuardedSearch(old(tracker.CurrentQuota()), reply, ReposErrorPrefix).notices)
    {
      r, sent := Search(RepositorySearch, query, reply, ReposErrorPrefix);
    }

    /** `searchGitHub(query)`, with the network's answers to the repository and user requests. */
    method SearchGitHub(query: string, repoReply: Fetch<GitHubRepo>, userReply: Fetch<GitHubUser>)
      returns (result: Result<seq<ResultItem>>, sent: seq<Request>)
      modifies tracker, tracker.storage
      ensures var run := SearchGitHubRun(old(tracker.CurrentQuota()), CreateHeaders(), query, repoReply, userReply);
        tracker.CurrentQuota() == run.quota && result == run.result && sent == run.requests
        && StoreSaved(run.saved) && Announced(run.notices)
      ensures TrackerKept()
    {
      if tracker.IsExceeded() {
        result, sent := SearchWhileExceeded(query, repoReply, userReply);
      } else {
        result, sent := SearchLive(query, repoReply, userReply);
      }
    }

    /** The early return of `searchGitHub` while the tracker is exceeded. */
    method SearchWhileExceeded(query: string, repoReply: Fetch<GitHubRepo>, userReply: Fetch<GitHubUser>)
      returns (result: Result<seq<ResultItem>>, sent: seq<Request>)
      requires tracker.IsExceeded()
      modifies tracker, tracker.storage
      ensures var run := SearchGitHubRun(old(tracker.CurrentQuota()), CreateHeaders(), query, repoReply, userReply);
        tracker.CurrentQuota() == run.quota && result == run.result && sent == run.requests
        && StoreSaved(run.saved) && Announced(run.notices)
      ensures TrackerKept()
    {
      var fallback := Cache.GetFallbackResults(query);
      if |fallback| > 0 {
        return Ok(fallback), [];
      }
      result := Err(RateLimitMessage);
      RateLimitMessagesClassify();
      CatchRateLimit(result);
      return result, [];
    }

    /** `searchGitHub` past the exceeded check: the repository search, then maybe the user search. */
    method SearchLive(query: string, repoReply: Fetch<GitHubRepo>, userReply: Fetch<GitHubUser>)
      returns (result: Result<seq<ResultItem>>, sent: seq<Request>)
      requires !tracker.IsExceeded()
      modifies tracker, tracker.storage
      ensures var run := SearchGitHubRun(old(tracker.CurrentQuota()), CreateHeaders(), query, repoReply, userReply);
        tracker.CurrentQuota() == run.quota && result == run.result && sent == run.requests
        && StoreSaved(run.saved) && Announced(run.notices)
      ensures TrackerKept()
    {
      var repoQuery := Trim(query);
      sent := [Request(RankedRepositorySearch, repoQuery, CreateHeaders())];
      ghost var e0 := tracker.storage.entries;
      var reposResponse := Send(repoReply, SearchErrorPrefix);
      ghost var q1 := tracker.CurrentQuota();
      ghost var n1 := Attempt(old(tracker.CurrentQuota()), repoReply, SearchErrorPrefix).notices;
      if reposResponse.Err? {
        var fallback := Cache.GetFallbackResults(query);
        if |fallback| > 0 {
          return Ok(fallback), sent;
        }
        CatchRateLimit(reposResponse);
        PersistedTwice(e0, tracker.storage.available, q1, tracker.CurrentQuota());
        DeliveredAppend(old(tracker.delivered), tracker.subscribers, n1, CaughtNotices(q1, reposResponse));
        return Err(reposResponse.error), sent;
      }
      var repos := reposResponse.value;
      var userResults, userSent := AddUserResults(query, repos, userReply, e0);
      DeliveredAppend(old(tracker.delivered), tracker.subscribers, n1,
        if NeedsUserSearch(|repos|, query) then GuardedSearch(q1, userReply, UsersErrorPrefix).notices else []);
      assert n1 + [] == n1;
      sent := sent + userSent;
      result := Ok(Cap(CreateRepoResults(repos) + userResults));
    }

    /**
     * The user half of `searchGitHub` after a successful repository search:
     * the owners of the repositories, followed, when there are few repositories
     * or the query is short, by the users the user search finds.
     */
    method AddUserResults(query: string, repos: seq<GitHubRepo>, userReply: Fetch<GitHubUser>, ghost e0: map<string, string>)
      returns (users: seq<ResultItem>, userSent: seq<Request>)
      requires tracker.storage.entries == Persisted(e0, tracker.storage.available, tracker.CurrentQuota())
      modifies tracker, tracker.storage
      ensures tracker.storage.entries == Persisted(e0, tracker.storage.available, tracker.CurrentQuota())
      ensures NeedsUserSearch(|repos|, query) ==>
        var u := GuardedSearch(old(tracker.CurrentQuota()), userReply, UsersErrorPrefix);
        && tracker.CurrentQuota() == u.quota
        && users == WithDirectUsers(OwnerUsers(repos), u.result)
        && userSent == if Exceeded(old(tracker.CurrentQuota())) then [] else [Request(UserSearch, query, CreateHeaders())]
      ensures !NeedsUserSearch(|repos|, query) ==>
        tracker.CurrentQuota() == old(tracker.CurrentQuota()) && users == OwnerUsers(repos) && userSent == []
      ensures TrackerKept()
      ensures Announced(if NeedsUserSearch(|repos|, query)
                        then GuardedSearch(old(tracker.CurrentQuota()), userReply, UsersErrorPrefix).notices else [])
    {
      var ownerLogins;
      users, ownerLogins := CollectOwners(repos);
      userSent := [];
      if |repos| < 8 || |query| < 4 {
        ghost var q1 := tracker.CurrentQuota();
        var usersResponse;
        usersResponse, userSent := SearchUsers(query, userReply);
        PersistedTwice(e0, tracker.storage.available, q1, tracker.CurrentQuota());
        if usersResponse.Ok? {
          users := AppendDirectUsers(users, UserItems(usersResponse.value), ownerLogins);
        }
      }
    }
  }
}
