/**
 * The records of the autocomplete: the result items shown in the dropdown,
 * the search state and the actions of its reducer, a cache entry, and the
 * parts of the provider's JSON replies that the engine reads.
 */
module Types {
  import opened Wrappers

  /** The `type` of a result item (`type` is a Dafny keyword, hence `kind`). */
  datatype ItemType = User | Repository

  /** `AutocompleteResultItem`; `description` is absent for users. */
  datatype ResultItem = ResultItem(
    id: string,
    name: string,
    kind: ItemType,
    url: string,
    avatarUrl: string,
    description: Option<string>)

  /** `SearchState`; `error == None` stands for `error: null`. */
  datatype SearchState = SearchState(
    query: string,
    results: seq<ResultItem>,
    isLoading: bool,
    error: Option<string>,
    selectedIndex: int,
    showDropdown: bool)

  /** `SearchAction`, one constructor per `type` tag, each carrying its `payload`. */
  datatype SearchAction =
    | SetQuery(query: string)
    | SetResults(results: seq<ResultItem>)
    | SetLoading(loading: bool)
    | SetError(error: Option<string>)
    | SetSelectedIndex(index: int)
    | SetShowDropdown(show: bool)
    | Reset

  /** `CacheItem`: the results of one query and the time (ms) they were stored. */
  datatype CacheItem = CacheItem(timestamp: int, results: seq<ResultItem>)

  /** The fields of a user in the provider's user-search reply that the engine reads. */
  datatype GitHubUser = GitHubUser(login: string, id: nat, avatarUrl: string, htmlUrl: string)

  /** The owner of a repository as the repository-search reply gives it. */
  datatype RepoOwner = RepoOwner(login: string, id: nat, avatarUrl: string, htmlUrl: string)

  /** The fields of a repository in the repository-search reply that the engine reads. */
  datatype GitHubRepo = GitHubRepo(
    id: nat,
    name: string,
    owner: RepoOwner,
    htmlUrl: string,
    description: Option<string>)
}
