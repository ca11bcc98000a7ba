/**
 * The handlers of the `GitHubAutocomplete` component
 * (`src/components/GitHubAutocomplete/index.tsx`) over the search state:
 * arrow keys move the highlighted result with wraparound or open the
 * dropdown, Enter selects the highlighted result, Escape and a click outside
 * close the dropdown, and `activeDescendant` names the highlighted result.
 * Each handler issues at most one reducer action.
 */
module Autocomplete {
  import opened Wrappers
  import opened Types
  import opened SearchHook
  import opened KeyboardNavigation

  /** The selection names no result (-1) or one of the results. */
  ghost predicate SelectionInRange(s: SearchState) {
    -1 <= s.selectedIndex < |s.results|
  }

  /** `handleArrowDown`. */
  function ArrowDownKey(s: SearchState): (r: SearchState)
    ensures s.showDropdown && |s.results| > 0 ==> r == s.(selectedIndex := Next(s.selectedIndex, |s.results|))
    ensures !s.showDropdown && |s.results| > 0 ==> r == s.(showDropdown := true)
    ensures |s.results| == 0 ==> r == s
  {
    if s.showDropdown && |s.results| > 0 then Reduce(s, SetSelectedIndex(Next(s.selectedIndex, |s.results|)))
    else if |s.results| > 0 then Reduce(s, SetShowDropdown(true))
    else s
  }

  /** `handleArrowUp`. */
  function ArrowUpKey(s: SearchState): (r: SearchState)
    ensures s.showDropdown && |s.results| > 0 ==> r == s.(selectedIndex := Prev(s.selectedIndex, |s.results|))
    ensures !s.showDropdown && |s.results| > 0 ==> r == s.(showDropdown := true)
    ensures |s.results| == 0 ==> r == s
  {
    if s.showDropdown && |s.results| > 0 then Reduce(s, SetSelectedIndex(Prev(s.selectedIndex, |s.results|)))
    else if |s.results| > 0 then Reduce(s, SetShowDropdown(true))
    else s
  }

  /** `handleEscapeKey`: closes an open dropdown and changes nothing else. */
  function EscapeKey(s: SearchState): (r: SearchState)
    ensures r == s.(showDropdown := false)
  {
    if s.showDropdown then Reduce(s, SetShowDropdown(false)) else s
  }

  /** The `mousedown` listener: a press outside the component closes the dropdown and changes nothing else. */
  function ClickOutside(s: SearchState, insideContainer: bool): (r: SearchState)
    ensures insideContainer ==> r == s
    ensures !insideContainer ==> r == s.(showDropdown := false)
  {
    if !insideContainer then Reduce(s, SetShowDropdown(false)) else s
  }

  /** The arrow keys, Escape and a click outside keep the selection on a result or on none. */
  lemma HandlersKeepSelectionInRange(s: SearchState, insideContainer: bool)
    requires SelectionInRange(s)
    ensures SelectionInRange(ArrowDownKey(s)) && SelectionInRange(ArrowUpKey(s))
    ensures SelectionInRange(EscapeKey(s)) && SelectionInRange(ClickOutside(s, insideContainer))
  {
  }

  /** With the dropdown open over a highlighted result, ArrowUp undoes ArrowDown and back. */
  lemma ArrowsUndoEachOther(s: SearchState)
    requires s.showDropdown && 0 <= s.selectedIndex < |s.results|
    ensures ArrowUpKey(ArrowDownKey(s)) == s
    ensures ArrowDownKey(ArrowUpKey(s)) == s
  {
    PrevNextInverse(s.selectedIndex, |s.results|);
  }

  /** Reopening after Escape shows the same query, results and selection: nothing but the dropdown flag changed. */
  lemma ReopenRestoresView(s: SearchState)
    requires |s.results| > 0
    ensures ArrowDownKey(EscapeKey(s)) == s.(showDropdown := true)
  {
  }

  /** What `handleSelect(item)` does: open the item's page and, when given, notify the external `onSelect`. */
  datatype SelectEffects = SelectEffects(openedUrl: string, notified: Option<ResultItem>)

  function HandleSelect(item: ResultItem, hasExternalOnSelect: bool): (r: SelectEffects)
    ensures r.openedUrl == item.url
    ensures r.notified.Some? <==> hasExternalOnSelect
    ensures r.notified.Some? ==> r.notified.value == item
  {
    SelectEffects(item.url, if hasExternalOnSelect then Some(item) else None)
  }

  /** A rendered value, or the `TypeError` a read of a field of `undefined` throws. */
  datatype Rendered<T> = Value(value: T) | TypeError

  /**
   * `handleEnterKey` as written: the guard checks `selectedIndex >= 0` but not
   * that it is below the length, and `handleSelect(undefined)` throws.
   */
  function EnterKeyAsWritten(s: SearchState, hasExternalOnSelect: bool): (r: Rendered<Option<SelectEffects>>)
    ensures r.TypeError? <==> s.showDropdown && |s.results| > 0 && s.selectedIndex >= |s.results|
    ensures r.Value? && r.value.Some? ==>
      0 <= s.selectedIndex < |s.results| && r.value.value == HandleSelect(s.results[s.selectedIndex], hasExternalOnSelect)
  {
    if s.showDropdown && s.selectedIndex >= 0 && |s.results| > 0 then
      if s.selectedIndex < |s.results| then Value(Some(HandleSelect(s.results[s.selectedIndex], hasExternalOnSelect)))
      else TypeError
    else Value(None)
  }

  /** `activeDescendant` as written, with the same guard. */
  function ActiveDescendantAsWritten(s: SearchState): (r: Rendered<string>)
    ensures r.TypeError? <==> |s.results| > 0 && s.selectedIndex >= |s.results|
    ensures 0 <= s.selectedIndex < |s.results| ==> r == Value("github-result-" + s.results[s.selectedIndex].id)
    ensures s.selectedIndex < 0 || |s.results| == 0 ==> r == Value("")
  {
    if s.selectedIndex >= 0 && |s.results| > 0 then
      if s.selectedIndex < |s.results| then Value("github-result-" + s.results[s.selectedIndex].id)
      else TypeError
    else Value("")
  }

  /** `handleEnterKey` with the index checked against the length: it selects exactly the highlighted result. */
  function EnterKey(s: SearchState, hasExternalOnSelect: bool): (r: Option<SelectEffects>)
    ensures r.Some? <==> s.showDropdown && 0 <= s.selectedIndex < |s.results|
    ensures r.Some? ==> r.value == HandleSelect(s.results[s.selectedIndex], hasExternalOnSelect)
  {
    if s.showDropdown && 0 <= s.selectedIndex < |s.results| then
      Some(HandleSelect(s.results[s.selectedIndex], hasExternalOnSelect))
    else None
  }

  /** `activeDescendant` with the index checked against the length. */
  function ActiveDescendant(s: SearchState): (r: string)
    ensures 0 <= s.selectedIndex < |s.results| ==> r == "github-result-" + s.results[s.selectedIndex].id
    ensures !(0 <= s.selectedIndex < |s.results|) ==> r == ""
  {
    if 0 <= s.selectedIndex < |s.results| then "github-result-" + s.results[s.selectedIndex].id else ""
  }

  /** Whenever the selection is in range, the written handlers and the checked ones agree. */
  lemma CheckedAgreesInRange(s: SearchState, hasExternalOnSelect: bool)
    requires SelectionInRange(s)
    ensures EnterKeyAsWritten(s, hasExternalOnSelect) == Value(EnterKey(s, hasExternalOnSelect))
    ensures ActiveDescendantAsWritten(s) == Value(ActiveDescendant(s))
  {
  }

  /** New results do not reset the selection, so they can leave it past the end of the list. */
  lemma NewResultsCanLeaveSelectionOutOfRange(s: SearchState, results: seq<ResultItem>)
    requires 0 <= s.selectedIndex && |results| <= s.selectedIndex
    ensures !SelectionInRange(Reduce(s, SetResults(results)))
  {
  }

  const ItemA := ResultItem("repo-1", "a", Repository, "https://github.com/o/a", "https://example.com/o.png", Some("A"))
  const ItemB := ResultItem("repo-2", "b", Repository, "https://github.com/o/b", "https://example.com/o.png", Some("B"))
  const ItemC := ResultItem("repo-3", "c", Repository, "https://github.com/o/c", "https://example.com/o.png", Some("C"))

  /** The state after `SET_QUERY "abc"`, its three results, and `SET_QUERY "abcd"` as the user types on. */
  const TypedOn := ReduceAll(InitialState, [SetQuery("abc"), SetResults([ItemA, ItemB, ItemC]), SetQuery("abcd")])

  lemma TypedOnState()
    ensures TypedOn == SearchState("abcd", [ItemA, ItemB, ItemC], false, None, -1, true)
  {
    var acts := [SetQuery("abc"), SetResults([ItemA, ItemB, ItemC]), SetQuery("abcd")];
    assert acts[..2] == [SetQuery("abc"), SetResults([ItemA, ItemB, ItemC])];
    ReduceAllTwo(InitialState, acts[0], acts[1]);
  }

  /**
   * While the search for "abcd" is pending the user highlights the third of
   * the old results; the search then returns a single result. Enter and the
   * rendering of `activeDescendant` then read a field of `undefined`; the
   * checked versions select nothing and name nothing.
   */
  lemma StaleSelectionThrows()
    ensures var s := ArrowDownKey(ArrowDownKey(ArrowDownKey(TypedOn)));
      var after := ReduceAll(s, [SetLoading(true), SetResults([ItemA])]);
      && s.selectedIndex == 2
      && after == SearchState("abcd", [ItemA], false, None, 2, true)
      && EnterKeyAsWritten(after, true) == TypeError && ActiveDescendantAsWritten(after) == TypeError
      && EnterKey(after, true) == None && ActiveDescendant(after) == ""
  {
    TypedOnState();
    var s := ArrowDownKey(ArrowDownKey(ArrowDownKey(TypedOn)));
    ReduceAllTwo(s, SetLoading(true), SetResults([ItemA]));
  }
}
