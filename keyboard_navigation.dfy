/**
 * The handlers of `useKeyboardNavigation` (`src/hooks/useKeyboardNavigation.ts`):
 * wraparound movement of the highlighted index over the result list, Enter
 * to select the highlighted item, and Escape to close the dropdown. Each
 * handler either returns early or calls one callback; the model returns what
 * that callback receives.
 */
module KeyboardNavigation {
  import opened Wrappers
  import opened Types

  /**
   * The wraparound increment: the next item, or the first after the last.
   * Over the valid indices (and from no selection, -1) it is `(i + 1) mod len`.
   */
  function Next(i: int, len: nat): (r: int)
    ensures len > 0 && -1 <= i < len ==> r == (i + 1) % len && 0 <= r < len
  {
    if i < len - 1 then i + 1 else 0
  }

  /**
   * The wraparound decrement: the previous item, or the last before the first
   * and from no selection. Over the valid indices it is `(i - 1) mod len`.
   */
  function Prev(i: int, len: nat): (r: int)
    ensures len > 0 && 0 <= i < len ==> r == (i - 1 + len) % len
    ensures len > 0 && -1 <= i < len ==> 0 <= r < len
    ensures i <= 0 ==> r == len - 1
  {
    if i > 0 then i - 1 else len - 1
  }

  /** `up(down(i)) == i` and `down(up(i)) == i` over the valid indices. */
  lemma PrevNextInverse(i: int, len: nat)
    requires 0 <= i < len
    ensures Prev(Next(i, len), len) == i
    ensures Next(Prev(i, len), len) == i
  {
  }

  /** `k` presses of the increment. */
  function NextPow(i: int, len: nat, k: nat): int
    decreases k
  {
    if k == 0 then i else Next(NextPow(i, len, k - 1), len)
  }

  /** The first press can be taken first. */
  lemma {:induction false} NextPowFirst(i: int, len: nat, k: nat)
    ensures NextPow(i, len, k + 1) == NextPow(Next(i, len), len, k)
    decreases k
  {
    if k > 0 {
      NextPowFirst(i, len, k - 1);
    }
  }

  /** Below the last item, `k` presses move `k` places down. */
  lemma {:induction false} NextPowClimbs(i: int, len: nat, k: nat)
    requires 0 <= i && i + k < len
    ensures NextPow(i, len, k) == i + k
    decreases k
  {
    if k > 0 {
      NextPowClimbs(i, len, k - 1);
    }
  }

  /** A full cycle of `len` ArrowDown presses returns to the starting item. */
  lemma FullCycle(i: int, len: nat)
    requires 0 <= i < len
    ensures NextPow(i, len, len) == i
  {
    var down := len - 1 - i;
    NextPowSplit(i, len, down, i + 1);
    NextPowClimbs(i, len, down);
    NextPowFirst(len - 1, len, i);
    NextPowClimbs(0, len, i);
  }

  /** Presses compose. */
  lemma {:induction false} NextPowSplit(i: int, len: nat, k: nat, m: nat)
    ensures NextPow(i, len, k + m) == NextPow(NextPow(i, len, k), len, m)
    decreases m
  {
    if m > 0 {
      NextPowSplit(i, len, k, m - 1);
    }
  }

  /** `handleArrowDown`: the index handed to `setSelectedIndex`, or `None` when it returns early. */
  function ArrowDown(isOpen: bool, results: seq<ResultItem>, selectedIndex: int): (r: Option<int>)
    ensures r.Some? <==> isOpen && |results| > 0
    ensures r.Some? ==> r.value == Next(selectedIndex, |results|)
    ensures r.Some? && -1 <= selectedIndex < |results| ==> 0 <= r.value < |results|
  {
    if !isOpen || |results| == 0 then None else Some(Next(selectedIndex, |results|))
  }

  /** `handleArrowUp`: the index handed to `setSelectedIndex`, or `None` when it returns early. */
  function ArrowUp(isOpen: bool, results: seq<ResultItem>, selectedIndex: int): (r: Option<int>)
    ensures r.Some? <==> isOpen && |results| > 0
    ensures r.Some? ==> r.value == Prev(selectedIndex, |results|)
    ensures r.Some? && -1 <= selectedIndex < |results| ==> 0 <= r.value < |results|
    ensures r.Some? && selectedIndex == -1 ==> r.value == |results| - 1
  {
    if !isOpen || |results| == 0 then None else Some(Prev(selectedIndex, |results|))
  }

  /**
   * What `onSelect` receives: nothing when the handler returns early, the
   * item at the index, or `undefined` for an index outside the list.
   */
  datatype Selection = NotCalled | Selected(item: ResultItem) | SelectedUndefined

  /** `handleEnter`. */
  function Enter(isOpen: bool, results: seq<ResultItem>, selectedIndex: int): (r: Selection)
    ensures r.NotCalled? <==> !isOpen || |results| == 0 || selectedIndex == -1
    ensures r.Selected? <==> isOpen && 0 <= selectedIndex < |results|
    ensures r.Selected? ==> r.item == results[selectedIndex]
  {
    if !isOpen || |results| == 0 || selectedIndex == -1 then NotCalled
    else if 0 <= selectedIndex < |results| then Selected(results[selectedIndex])
    else SelectedUndefined
  }

  /** Over a valid index, Enter never hands `onSelect` an undefined item. */
  lemma EnterInRange(isOpen: bool, results: seq<ResultItem>, selectedIndex: int)
    requires -1 <= selectedIndex < |results|
    ensures !Enter(isOpen, results, selectedIndex).SelectedUndefined?
  {
  }

  /** `handleEscape`: whether `closeDropdown` is called; it is optional, and absent means nothing happens. */
  function Escape(isOpen: bool, hasCloseDropdown: bool): (r: bool)
    ensures r <==> isOpen && hasCloseDropdown
  {
    isOpen && hasCloseDropdown
  }
}
