/**
 * `useDebounce(value, delay)` of `src/hooks/useDebounce.ts` as an event
 * machine over an explicit clock. The hook holds the debounced value and at
 * most one pending timer; its effect runs on mount and whenever `value` or
 * `delay` changes, clearing the previous timer and scheduling a commit of the
 * new value `delay` ms later. Teardown clears the timer.
 */
module Debounce {
  import opened Wrappers

  /** A scheduled `setDebouncedValue(value)` due at `due`. */
  datatype Timer<T> = Timer(due: int, value: T)

  /**
   * The hook's state: the latest input `value` and `delay` (the effect's
   * dependencies), the `debounced` value it returns, the pending timer, and
   * the log of every commit made.
   */
  datatype DebounceState<T> = DebounceState(value: T, delay: nat, debounced: T, pending: Option<Timer<T>>, commits: seq<T>)

  /** Every pending timer carries the latest input. */
  ghost predicate Valid<T>(s: DebounceState<T>) {
    s.pending.Some? ==> s.pending.value.value == s.value
  }

  /** Mounting: the debounced value starts as the initial value, and the effect schedules its commit. */
  function Mounted<T>(initial: T, delay: nat, nowMs: int): (r: DebounceState<T>)
    ensures r.debounced == initial && r.value == initial && r.delay == delay && r.commits == []
    ensures r.pending == Some(Timer(nowMs + delay, initial))
    ensures Valid(r)
  {
    DebounceState(initial, delay, initial, Some(Timer(nowMs + delay, initial)), [])
  }

  /**
   * A render with input `v` and delay `delay` at `nowMs`. The effect reruns
   * only when the input or the delay differs from the previous render; it then
   * cancels the pending timer and schedules a commit of `v`.
   */
  function Changed<T(==)>(s: DebounceState<T>, v: T, delay: nat, nowMs: int): (r: DebounceState<T>)
    ensures v == s.value && delay == s.delay ==> r == s
    ensures v != s.value || delay != s.delay ==>
      r == s.(value := v, delay := delay, pending := Some(Timer(nowMs + delay, v)))
    ensures Valid(s) ==> Valid(r)
  {
    if v == s.value && delay == s.delay then s
    else s.(value := v, delay := delay, pending := Some(Timer(nowMs + delay, v)))
  }

  /** The timer's callback, when it is due at `nowMs`: commit its value. */
  function Fired<T>(s: DebounceState<T>, nowMs: int): (r: DebounceState<T>)
    ensures s.pending.None? || nowMs < s.pending.value.due ==> r == s
    ensures s.pending.Some? && s.pending.value.due <= nowMs ==>
      r.commits == s.commits + [s.pending.value.value] && r.debounced == s.pending.value.value
      && r.pending.None? && r.value == s.value
    ensures Valid(s) ==> Valid(r)
  {
    if s.pending.Some? && s.pending.value.due <= nowMs then
      s.(debounced := s.pending.value.value, pending := None, commits := s.commits + [s.pending.value.value])
    else s
  }

  /** Unmounting: the cleanup clears the pending timer. */
  function TornDown<T>(s: DebounceState<T>): (r: DebounceState<T>)
    ensures r.pending.None? && r.commits == s.commits && r.debounced == s.debounced
    ensures Valid(r)
  {
    s.(pending := None)
  }

  /** After teardown no timer fires, at any time. */
  lemma NothingCommitsAfterTeardown<T>(s: DebounceState<T>, nowMs: int)
    ensures Fired(TornDown(s), nowMs) == TornDown(s)
  {
  }

  /** In a valid state every commit carries the latest input: a superseded value never commits. */
  lemma CommitIsLatest<T>(s: DebounceState<T>, nowMs: int)
    requires Valid(s)
    ensures var r := Fired(s, nowMs); r.commits == s.commits || r.commits == s.commits + [s.value]
  {
  }

  /** With no change for `delay` ms after a change, that change's value is committed. */
  lemma QuietPeriodCommits<T>(s: DebounceState<T>, v: T, delay: nat, t: int, u: int)
    requires v != s.value && t + delay <= u
    ensures var r := Fired(Changed(s, v, delay, t), u);
      r.debounced == v && r.commits == s.commits + [v] && r.pending.None?
  {
  }

  /** A change before the pending timer is due cancels it: its value is not committed. */
  lemma ChangeCancelsPending<T>(s: DebounceState<T>, v: T, w: T, delay: nat, t: int, t2: int, u: int)
    requires v != s.value && w != v && t <= t2 < t + delay && u < t2 + delay
    ensures var r := Fired(Changed(Changed(s, v, delay, t), w, delay, t2), u);
      r.commits == s.commits && r.pending == Some(Timer(t2 + delay, w))
  {
  }

  /**
   * A new delay alone reruns the effect too: the pending commit of the same
   * value is cancelled and rescheduled `newDelay` ms after the new render.
   */
  lemma DelayChangeReschedules<T>(s: DebounceState<T>, v: T, delay: nat, newDelay: nat, t: int, t2: int, u: int)
    requires v != s.value && newDelay != delay && t <= t2 < t + delay && u < t2 + newDelay
    ensures var r := Fired(Changed(Changed(s, v, delay, t), v, newDelay, t2), u);
      r.commits == s.commits && r.delay == newDelay && r.pending == Some(Timer(t2 + newDelay, v))
  {
  }

  /** An input change and the time it happens. */
  datatype Change<T> = Change(value: T, time: int)

  /**
   * The changes of a burst, with any due timer firing before each one: the
   * timer is given its chance at the time of each change.
   */
  function Replay<T(==)>(s: DebounceState<T>, changes: seq<Change<T>>, delay: nat): DebounceState<T>
    decreases |changes|
  {
    if changes == [] then s
    else
      var c := changes[|changes| - 1];
      Changed(Fired(Replay(s, changes[..|changes| - 1], delay), c.time), c.value, delay, c.time)
  }

  /**
   * A burst: each change differs from the input before it and comes at or
   * after the previous change but less than `delay` ms later.
   */
  predicate IsBurst<T(==)>(s: DebounceState<T>, changes: seq<Change<T>>, delay: nat) {
    && |changes| > 0
    && changes[0].value != s.value
    && forall i :: 0 < i < |changes| ==>
         changes[i].value != changes[i - 1].value
         && changes[i - 1].time <= changes[i].time < changes[i - 1].time + delay
  }

  /**
   * During a burst the only timer that may still commit is the one pending
   * before it; afterwards a single timer is pending, for the last value.
   */
  lemma {:induction false} BurstLeavesOneTimer<T>(s: DebounceState<T>, changes: seq<Change<T>>, delay: nat)
    requires IsBurst(s, changes, delay)
    ensures var r := Replay(s, changes, delay);
      var last := changes[|changes| - 1];
      var before := Fired(s, changes[0].time);
      && r.commits == before.commits && r.debounced == before.debounced
      && r.value == last.value && r.pending == Some(Timer(last.time + delay, last.value))
    decreases |changes|
  {
    var n := |changes|;
    if n == 1 {
      assert changes[..0] == [];
    } else {
      var prefix := changes[..n - 1];
      assert prefix[0] == changes[0];
      assert IsBurst(s, prefix, delay) by {
        forall i | 0 < i < |prefix|
          ensures prefix[i].value != prefix[i - 1].value
                  && prefix[i - 1].time <= prefix[i].time < prefix[i - 1].time + delay
        {
          assert prefix[i] == changes[i] && prefix[i - 1] == changes[i - 1];
        }
      }
      BurstLeavesOneTimer(s, prefix, delay);
      assert changes[n - 2] == prefix[|prefix| - 1];
    }
  }

  /**
   * A burst followed by `delay` quiet ms commits exactly once, the last value;
   * before that nothing of the burst commits.
   */
  lemma BurstCommitsOnce<T>(s: DebounceState<T>, changes: seq<Change<T>>, delay: nat, u: int)
    requires IsBurst(s, changes, delay)
    ensures var r := Replay(s, changes, delay);
      var last := changes[|changes| - 1];
      var before := Fired(s, changes[0].time);
      && (u < last.time + delay ==> Fired(r, u).commits == before.commits)
      && (last.time + delay <= u ==>
            Fired(r, u).commits == before.commits + [last.value] && Fired(r, u).debounced == last.value)
  {
    BurstLeavesOneTimer(s, changes, delay);
  }

  /** The hook instance: its fields are the hook's state and refs. */
  class Debouncer<T(==)> {
    var value: T
    var debounced: T
    var pending: Option<Timer<T>>
    var commits: seq<T>
    var delay: nat

    function State(): DebounceState<T>
      reads this
    {
      DebounceState(value, delay, debounced, pending, commits)
    }

    /** Mounting with the initial input at `nowMs`. */
    constructor (initial: T, delay: nat, nowMs: int)
      ensures State() == Mounted(initial, delay, nowMs)
    {
      value := initial;
      debounced := initial;
      pending := Some(Timer(nowMs + delay, initial));
      commits := [];
      this.delay := delay;
    }

    /** A render with input `v` and delay `newDelay` at `nowMs`. */
    method Change(v: T, newDelay: nat, nowMs: int)
      modifies this
      ensures State() == Changed(old(State()), v, newDelay, nowMs)
    {
      if v != value || newDelay != delay {
        pending := None;
        pending := Some(Timer(nowMs + newDelay, v));
        value := v;
        delay := newDelay;
      }
    }

    /** The clock reaches `nowMs`: the timer's callback runs if it is due. */
    method Fire(nowMs: int)
      modifies this
      ensures State() == Fired(old(State()), nowMs)
    {
      if pending.Some? && pending.value.due <= nowMs {
        var v := pending.value.value;
        pending := None;
        debounced := v;
        commits := commits + [v];
      }
    }

    /** Unmounting. */
    method Teardown()
      modifies this
      ensures State() == TornDown(old(State()))
    {
      pending := None;
    }
  }
}
