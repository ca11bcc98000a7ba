/**
 * `useTypingAwareDebounce(value, delay, typingThreshold)` of
 * `src/hooks/useTypingAwareDebounce.ts` as an event machine over an explicit
 * clock. Each change of the input, the delay or the threshold records the
 * time of the change and replaces the pending timer by one due `delay` ms later; when that timer fires it commits
 * only if the input has been quiet for `typingThreshold` ms, and otherwise
 * schedules one more timer for the rest of the threshold.
 */
module TypingAwareDebounce {
  import opened Wrappers

  /** The default `typingThreshold`. */
  const DefaultTypingThreshold := 500

  /** A scheduled callback: the first timer checks the quiet time, the `second` one commits. */
  datatype Timer<T> = Timer(due: int, value: T, second: bool)

  /**
   * The hook's state: the latest input, `delay` and `threshold` (the effect's
   * dependencies; the pending callback sees the threshold of the render that
   * scheduled it), the debounced value it returns, the `lastTypingTime` ref,
   * the timer in `timeoutRef`, and the log of commits.
   */
  datatype TypingState<T> = TypingState(value: T, delay: nat, threshold: int, debounced: T, lastTypingTime: int, pending: Option<Timer<T>>, commits: seq<T>)

  /** Every pending timer carries the latest input. */
  ghost predicate Valid<T>(s: TypingState<T>) {
    s.pending.Some? ==> s.pending.value.value == s.value
  }

  /** Mounting at `nowMs`: the debounced value starts as the initial value, and the effect schedules the first timer. */
  function Mounted<T>(initial: T, delay: nat, threshold: int, nowMs: int): (r: TypingState<T>)
    ensures r.debounced == initial && r.value == initial && r.commits == [] && r.lastTypingTime == nowMs
    ensures r.delay == delay && r.threshold == threshold
    ensures r.pending == Some(Timer(nowMs + delay, initial, false))
    ensures Valid(r)
  {
    TypingState(initial, delay, threshold, initial, nowMs, Some(Timer(nowMs + delay, initial, false)), [])
  }

  /** Whether a render with these arguments changes one of the effect's dependencies. */
  predicate DependsChanged<T(==)>(s: TypingState<T>, v: T, delay: nat, threshold: int) {
    v != s.value || delay != s.delay || threshold != s.threshold
  }

  /**
   * A render with input `v`, `delay` and `threshold` at `nowMs`: when one of
   * them differs from the previous render, the effect records the time, clears
   * whichever timer is pending and schedules the first timer for `v`.
   */
  function Changed<T(==)>(s: TypingState<T>, v: T, delay: nat, threshold: int, nowMs: int): (r: TypingState<T>)
    ensures !DependsChanged(s, v, delay, threshold) ==> r == s
    ensures DependsChanged(s, v, delay, threshold) ==>
      r == s.(value := v, delay := delay, threshold := threshold, lastTypingTime := nowMs,
               pending := Some(Timer(nowMs + delay, v, false)))
    ensures Valid(s) ==> Valid(r)
  {
    if !DependsChanged(s, v, delay, threshold) then s
    else s.(value := v, delay := delay, threshold := threshold, lastTypingTime := nowMs,
            pending := Some(Timer(nowMs + delay, v, false)))
  }

  /**
   * The pending callback, when it is due at `nowMs`. The first timer commits if
   * at least `threshold` ms passed since the last change, and otherwise
   * schedules the second timer `threshold - elapsed` ms later; the second
   * timer commits.
   */
  function Fired<T>(s: TypingState<T>, nowMs: int): (r: TypingState<T>)
    ensures s.pending.None? || nowMs < s.pending.value.due ==> r == s
    ensures r.value == s.value && r.lastTypingTime == s.lastTypingTime
    ensures r.delay == s.delay && r.threshold == s.threshold
    ensures s.pending.Some? && s.pending.value.due <= nowMs ==>
      var p := s.pending.value;
      if p.second || nowMs - s.lastTypingTime >= s.threshold then
        r.commits == s.commits + [p.value] && r.debounced == p.value && r.pending.None?
      else
        r.commits == s.commits && r.debounced == s.debounced
        && r.pending == Some(Timer(s.lastTypingTime + s.threshold, p.value, true))
    ensures Valid(s) ==> Valid(r)
  {
    if s.pending.None? || nowMs < s.pending.value.due then s
    else
      var p := s.pending.value;
      if p.second then
        s.(debounced := p.value, pending := None, commits := s.commits + [p.value])
      else
        var elapsed := nowMs - s.lastTypingTime;
        if elapsed >= s.threshold then
          s.(debounced := p.value, pending := None, commits := s.commits + [p.value])
        else
          s.(pending := Some(Timer(nowMs + (s.threshold - elapsed), p.value, true)))
  }

  /** Unmounting: the cleanup clears whichever timer is pending. */
  function TornDown<T>(s: TypingState<T>): (r: TypingState<T>)
    ensures r.pending.None? && r.commits == s.commits && r.debounced == s.debounced
    ensures Valid(r)
  {
    s.(pending := None)
  }

  /** After teardown no timer fires, at any time. */
  lemma NothingCommitsAfterTeardown<T>(s: TypingState<T>, nowMs: int)
    ensures Fired(TornDown(s), nowMs) == TornDown(s)
  {
  }

  /** In a valid state every commit carries the latest input: a superseded value never commits. */
  lemma CommitIsLatest<T>(s: TypingState<T>, nowMs: int)
    requires Valid(s)
    ensures var r := Fired(s, nowMs); r.commits == s.commits || r.commits == s.commits + [s.value]
  {
  }

  function Max(a: int, b: int): int {
    if a >= b then a else b
  }

  /**
   * With no further change after a change at `t`, the value commits exactly
   * once, `max(delay, threshold)` ms after the change: the timers fire at
   * their due times, nothing commits earlier, and nothing is left pending.
   */
  lemma QuietCommit<T>(s: TypingState<T>, v: T, delay: nat, threshold: int, t: int, u: int)
    requires DependsChanged(s, v, delay, threshold)
    ensures var s1 := Changed(s, v, delay, threshold, t);
      var s2 := Fired(s1, t + delay);
      var s3 := Fired(s2, t + Max(delay, threshold));
      && (u < t + delay ==> Fired(s1, u) == s1)
      && (delay < threshold ==> s2.commits == s.commits && (u < t + threshold ==> Fired(s2, u) == s2))
      && s3.commits == s.commits + [v] && s3.debounced == v && s3.pending.None?
  {
  }

  /**
   * A new threshold alone reruns the effect: the pending first timer is
   * replaced, the typing time restarts, and the replacement timer judges the
   * quiet time by the new threshold.
   */
  lemma ThresholdChangeRestarts<T>(s: TypingState<T>, threshold: int, t: int)
    requires threshold != s.threshold
    ensures var r := Changed(s, s.value, s.delay, threshold, t);
      && r.threshold == threshold && r.lastTypingTime == t && r.commits == s.commits
      && r.pending == Some(Timer(t + s.delay, s.value, false))
      && var f := Fired(r, t + s.delay);
        (s.delay >= threshold <==> f.commits == s.commits + [s.value])
  {
  }

  /** The hook instance: the debounced value, the two refs, and the commit log. */
  class TypingAwareDebouncer<T(==)> {
    var value: T
    var debounced: T
    var lastTypingTime: int
    var timeoutRef: Option<Timer<T>>
    var commits: seq<T>
    var delay: nat
    var typingThreshold: int

    function State(): TypingState<T>
      reads this
    {
      TypingState(value, delay, typingThreshold, debounced, lastTypingTime, timeoutRef, commits)
    }

    /** Mounting with the initial input at `nowMs`. */
    constructor (initial: T, delay: nat, typingThreshold: int, nowMs: int)
      ensures State() == Mounted(initial, delay, typingThreshold, nowMs)
    {
      value := initial;
      debounced := initial;
      lastTypingTime := nowMs;
      timeoutRef := Some(Timer(nowMs + delay, initial, false));
      commits := [];
      this.delay := delay;
      this.typingThreshold := typingThreshold;
    }

    /** A render with input `v`, `newDelay` and `newThreshold` at `nowMs`. */
    method Change(v: T, newDelay: nat, newThreshold: int, nowMs: int)
      modifies this
      ensures State() == Changed(old(State()), v, newDelay, newThreshold, nowMs)
    {
      if v != value || newDelay != delay || newThreshold != typingThreshold {
        lastTypingTime := nowMs;
        timeoutRef := None;
        timeoutRef := Some(Timer(nowMs + newDelay, v, false));
        value := v;
        delay := newDelay;
        typingThreshold := newThreshold;
      }
    }

    /** The clock reaches `nowMs`: the pending callback runs if it is due. */
    method Fire(nowMs: int)
      modifies this
      ensures State() == Fired(old(State()), nowMs)
    {
      if timeoutRef.None? || nowMs < timeoutRef.value.due {
        return;
      }
      var p := timeoutRef.value;
      var timeSinceLastType := nowMs - lastTypingTime;
      if p.second || timeSinceLastType >= typingThreshold {
        timeoutRef := None;
        debounced := p.value;
        commits := commits + [p.value];
      } else {
        var remainingTime := typingThreshold - timeSinceLastType;
        timeoutRef := Some(Timer(nowMs + remainingTime, p.value, true));
      }
    }

    /** Unmounting. */
    method Teardown()
      modifies this
      ensures State() == TornDown(old(State()))
    {
      timeoutRef := None;
    }
  }
}
