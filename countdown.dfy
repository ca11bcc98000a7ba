/**
 * `ResetCountdownTimer` of
 * `src/components/GitHubAutocomplete/ResetCountdownTimer.tsx`: the seconds
 * left until the quota resets, recomputed on mount, on every tick of a 1 s
 * interval and whenever the reset time changes; a colour band; and the
 * `m:ss` rendering.
 */
module Countdown {
  import opened Wrappers
  import opened Strings

  /** `calculateTimeRemaining()`: `max(0, resetTimestamp - floor(now / 1000))`, in seconds. */
  function SecondsRemaining(resetTimestamp: int, nowMs: int): (r: nat)
    ensures nowMs / 1000 >= resetTimestamp ==> r == 0
    ensures nowMs / 1000 < resetTimestamp ==> r == resetTimestamp - nowMs / 1000
  {
    var now := nowMs / 1000;
    if resetTimestamp - now > 0 then resetTimestamp - now else 0
  }

  lemma DivMonotone(a: int, b: int)
    requires a <= b
    ensures a / 1000 <= b / 1000
  {
  }

  /** The countdown never goes up as time passes. */
  lemma CountdownNonIncreasing(resetTimestamp: int, t1: int, t2: int)
    requires t1 <= t2
    ensures SecondsRemaining(resetTimestamp, t2) <= SecondsRemaining(resetTimestamp, t1)
  {
    DivMonotone(t1, t2);
  }

  /** One second later the countdown is one less, stopping at 0. */
  lemma CountdownStep(resetTimestamp: int, t: int)
    ensures var s := SecondsRemaining(resetTimestamp, t);
      SecondsRemaining(resetTimestamp, t + 1000) == if s > 0 then s - 1 else 0
  {
    assert (t + 1000) / 1000 == t / 1000 + 1;
  }

  /** The colour of the countdown. */
  datatype TimerColor = Green | Yellow | Red

  /** The colour bands: green under 10 s, yellow under 30 s, red otherwise. */
  function ColorFor(secondsRemaining: nat): (r: TimerColor)
    ensures r == Green <==> secondsRemaining < 10
    ensures r == Yellow <==> 10 <= secondsRemaining < 30
    ensures r == Red <==> 30 <= secondsRemaining
  {
    if secondsRemaining < 10 then Green
    else if secondsRemaining < 30 then Yellow
    else Red
  }

  function Urgency(c: TimerColor): nat {
    match c
    case Red => 0
    case Yellow => 1
    case Green => 2
  }

  /** As time passes the colour only moves from red towards green. */
  lemma ColorOnlyWarms(resetTimestamp: int, t1: int, t2: int)
    requires t1 <= t2
    ensures Urgency(ColorFor(SecondsRemaining(resetTimestamp, t1))) <= Urgency(ColorFor(SecondsRemaining(resetTimestamp, t2)))
  {
    CountdownNonIncreasing(resetTimestamp, t1, t2);
  }

  /** `formatTimeRemaining()`: whole minutes, a colon, and the seconds padded to two digits. */
  function FormatTimeRemaining(secondsRemaining: nat): (r: string)
  {
    NatToString(secondsRemaining / 60) + ":" + PadStart2(NatToString(secondsRemaining % 60))
  }

  /** The position of the first colon. */
  function FindColon(s: string): (r: Option<nat>)
    ensures r.Some? ==> r.value < |s| && s[r.value] == ':'
    decreases |s|
  {
    if s == [] then None
    else if s[0] == ':' then Some(0)
    else match FindColon(s[1..])
      case Some(i) => Some(i + 1)
      case None => None
  }

  lemma {:induction false} FindColonAfterDigits(d: string, rest: string)
    requires AllDigits(d)
    ensures FindColon(d + ":" + rest) == Some(|d|)
    decreases |d|
  {
    var s := d + ":" + rest;
    if d != [] {
      assert s[1..] == d[1..] + ":" + rest;
      FindColonAfterDigits(d[1..], rest);
    }
  }

  /** Reads an `m:ss` string back as seconds; the seconds must be two digits below 60. */
  function ParseTimeRemaining(s: string): (r: Option<nat>)
  {
    match FindColon(s)
    case None => None
    case Some(i) =>
      var m := s[..i];
      var ss := s[i + 1..];
      if AllDigits(m) && AllDigits(ss) && |ss| == 2 && ParseNat(ss) < 60 then Some(ParseNat(m) * 60 + ParseNat(ss))
      else None
  }

  /** Below 100 a number has at most two digits. */
  lemma ShortNumber(n: nat)
    requires n < 100
    ensures |NatToString(n)| <= 2
  {
  }

  /** Padding to two digits keeps the value. */
  lemma PadKeepsValue(s: string)
    requires AllDigits(s) && 0 < |s| <= 2
    ensures AllDigits(PadStart2(s)) && |PadStart2(s)| == 2 && ParseNat(PadStart2(s)) == ParseNat(s)
  {
    if |s| == 1 {
      var p := PadStart2(s);
      assert p == ['0'] + s;
      assert p[..1] == ['0'];
      assert ParseNat(['0']) == ParseNat([]) * 10 + 0;
    }
  }

  /** The rendering reads back as the same number of seconds, with two-digit seconds below 60. */
  lemma FormatRoundTrip(secondsRemaining: nat)
    ensures ParseTimeRemaining(FormatTimeRemaining(secondsRemaining)) == Some(secondsRemaining)
  {
    var m := NatToString(secondsRemaining / 60);
    var ss := PadStart2(NatToString(secondsRemaining % 60));
    var f := FormatTimeRemaining(secondsRemaining);
    ShortNumber(secondsRemaining % 60);
    PadKeepsValue(NatToString(secondsRemaining % 60));
    ParseNatToString(secondsRemaining / 60);
    ParseNatToString(secondsRemaining % 60);
    FindColonAfterDigits(m, ss);
    assert f[..|m|] == m && f[|m| + 1..] == ss;
  }

  /** The component instance: its state, the reset time it was given, and whether its interval runs. */
  class CountdownTimer {
    var secondsRemaining: nat
    var resetTimestamp: int
    var intervalRunning: bool

    /** The first render: `useState(0)`, before the effect runs. */
    constructor (resetTimestamp: int)
      ensures secondsRemaining == 0 && this.resetTimestamp == resetTimestamp && !intervalRunning
    {
      secondsRemaining := 0;
      this.resetTimestamp := resetTimestamp;
      intervalRunning := false;
    }

    function Color(): TimerColor
      reads this
    {
      ColorFor(secondsRemaining)
    }

    function Display(): string
      reads this
    {
      FormatTimeRemaining(secondsRemaining)
    }

    /** The effect, on mount or when `resetTimestamp` changes to `reset`: compute now and start a fresh interval. */
    method RunEffect(reset: int, nowMs: int)
      modifies this
      ensures resetTimestamp == reset && intervalRunning
      ensures secondsRemaining == SecondsRemaining(reset, nowMs)
    {
      intervalRunning := false;
      resetTimestamp := reset;
      secondsRemaining := SecondsRemaining(resetTimestamp, nowMs);
      intervalRunning := true;
    }

    /** A tick of the interval at `nowMs`; nothing happens once it is cleared. */
    method Tick(nowMs: int)
      modifies this
      ensures resetTimestamp == old(resetTimestamp) && intervalRunning == old(intervalRunning)
      ensures secondsRemaining == if intervalRunning then SecondsRemaining(resetTimestamp, nowMs) else old(secondsRemaining)
    {
      if intervalRunning {
        secondsRemaining := SecondsRemaining(resetTimestamp, nowMs);
      }
    }

    /** Unmounting clears the interval. */
    method Unmount()
      modifies this
      ensures !intervalRunning && secondsRemaining == old(secondsRemaining) && resetTimestamp == old(resetTimestamp)
    {
      intervalRunning := false;
    }
  }
}
