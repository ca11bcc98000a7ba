/**
 * The process-wide rate-limit tracker of `src/services/rateLimitService.ts`.
 *
 * Its decisions depend on two values: the snapshot `info` and the separate
 * `latch` (`isRateLimitExceeded`). The pure functions over `Quota(info,
 * latch)` below say what each operation does to them; the class
 * `RateLimitTracker` holds the mutable state (snapshot, latch, subscriber
 * list, the deliveries made to subscribers, the once-only interval flag and
 * the key-value store the snapshot is persisted in) and each of its methods is
 * proved to move `Quota` the way the matching function says.
 */
module RateLimit {
  import opened Wrappers
  import opened Strings
  import opened Codec
  import opened Storage

  const RateLimitKey := "github_rate_limit_info"
  const RateLimitExceededKey := "github_rate_limit_exceeded"

  /** `RateLimitInfo`; `reset` is in epoch seconds, 0 when unknown. */
  datatype RateLimitInfo = RateLimitInfo(
    limit: int,
    remaining: int,
    reset: int,
    resetTimeString: string,
    isSearchAPI: bool,
    exceeded: bool)

  /** The snapshot the module starts with when nothing is stored. */
  const DefaultInfo := RateLimitInfo(10, 10, 0, "", true, false)

  /** `Partial<RateLimitInfo>`: `None` for a field the update does not carry. */
  datatype InfoUpdate = InfoUpdate(
    limit: Option<int>,
    remaining: Option<int>,
    reset: Option<int>,
    resetTimeString: Option<string>,
    isSearchAPI: Option<bool>,
    exceeded: Option<bool>)

  const NoFields := InfoUpdate(None, None, None, None, None, None)

  function Max(a: int, b: int): int { if a >= b then a else b }
  function Min(a: int, b: int): int { if a <= b then a else b }

  /** `{ ...info, ...u }`: exactly the fields `u` carries are overwritten. */
  function Merge(info: RateLimitInfo, u: InfoUpdate): (r: RateLimitInfo)
    ensures r.limit == (if u.limit.Some? then u.limit.value else info.limit)
    ensures r.remaining == (if u.remaining.Some? then u.remaining.value else info.remaining)
    ensures r.reset == (if u.reset.Some? then u.reset.value else info.reset)
    ensures r.resetTimeString == (if u.resetTimeString.Some? then u.resetTimeString.value else info.resetTimeString)
    ensures r.isSearchAPI == (if u.isSearchAPI.Some? then u.isSearchAPI.value else info.isSearchAPI)
    ensures r.exceeded == (if u.exceeded.Some? then u.exceeded.value else info.exceeded)
    ensures u == NoFields ==> r == info
  {
    RateLimitInfo(
      u.limit.GetOr(info.limit),
      u.remaining.GetOr(info.remaining),
      u.reset.GetOr(info.reset),
      u.resetTimeString.GetOr(info.resetTimeString),
      u.isSearchAPI.GetOr(info.isSearchAPI),
      u.exceeded.GetOr(info.exceeded))
  }

  /** The state the tracker's decisions depend on. */
  datatype Quota = Quota(info: RateLimitInfo, latch: bool)

  /** `getIsRateLimitExceeded()`. */
  predicate Exceeded(q: Quota) {
    q.latch || q.info.remaining <= 0
  }

  /** An update that carries `remaining <= 0` forces the tracker into the exceeded state. */
  predicate Forces(u: InfoUpdate) {
    u.remaining.Some? && u.remaining.value <= 0
  }

  /** `updateRateLimitInfo(u)` on the snapshot and the latch. */
  function Updated(q: Quota, u: InfoUpdate): (r: Quota)
    ensures r.info == if Forces(u) then Merge(q.info, u).(exceeded := true) else Merge(q.info, u)
    ensures r.latch == (q.latch || Forces(u))
    ensures Forces(u) ==> r.latch && r.info.exceeded && Exceeded(r)
    ensures q.latch ==> r.latch
  {
    var merged := Merge(q.info, u);
    if Forces(u) then Quota(merged.(exceeded := true), true) else Quota(merged, q.latch)
  }

  /**
   * What `extractRateLimitInfo` reads from a response: its URL, the three
   * `x-ratelimit-*` headers (`None` when a header is missing or empty), and how
   * the host renders the reset time (`toLocaleTimeString`).
   */
  datatype ResponseMeta = ResponseMeta(
    url: string,
    limitHeader: Option<int>,
    remainingHeader: Option<int>,
    resetHeader: Option<int>,
    localeResetTime: string)

  predicate HasQuotaHeaders(resp: ResponseMeta) {
    resp.limitHeader.Some? && resp.remainingHeader.Some? && resp.resetHeader.Some?
  }

  /** The update `extractRateLimitInfo` hands to `updateRateLimitInfo`. */
  function ResponseUpdate(info: RateLimitInfo, resp: ResponseMeta): InfoUpdate {
    var decremented := Max(0, info.remaining - 1);
    var isSearch := Contains(resp.url, "/search/");
    if HasQuotaHeaders(resp) then
      var actual := Min(decremented, resp.remainingHeader.value);
      InfoUpdate(resp.limitHeader, Some(actual), resp.resetHeader, Some(resp.localeResetTime),
                 Some(isSearch), Some(actual <= 0))
    else
      InfoUpdate(None, Some(decremented), None, None, Some(isSearch), Some(decremented <= 0))
  }

  /**
   * `extractRateLimitInfo(response)`. Without the three headers the local count
   * drops by one and never below 0; with them, `limit` and `reset` are adopted
   * and `remaining` is the smaller of the local decrement and the header.
   */
  function AfterResponse(q: Quota, resp: ResponseMeta): (r: Quota)
    ensures r.info.isSearchAPI == Contains(resp.url, "/search/")
    ensures r.info.exceeded == (r.info.remaining <= 0)
    ensures r.latch == (q.latch || r.info.remaining <= 0)
    ensures !HasQuotaHeaders(resp) ==>
      && r.info.remaining == Max(0, q.info.remaining - 1)
      && r.info.remaining >= 0
      && (q.info.remaining > 0 ==> r.info.remaining == q.info.remaining - 1)
      && r.info.limit == q.info.limit && r.info.reset == q.info.reset
      && r.info.resetTimeString == q.info.resetTimeString
    ensures HasQuotaHeaders(resp) ==>
      && r.info.limit == resp.limitHeader.value
      && r.info.reset == resp.resetHeader.value
      && r.info.resetTimeString == resp.localeResetTime
      && r.info.remaining == Min(Max(0, q.info.remaining - 1), resp.remainingHeader.value)
      && r.info.remaining <= Max(0, q.info.remaining - 1)
      && r.info.remaining <= resp.remainingHeader.value
  {
    Updated(q, ResponseUpdate(q.info, resp))
  }

  /** `n` header-less responses in a row. */
  function AfterResponses(q: Quota, resp: ResponseMeta, n: nat): Quota
    decreases n
  {
    if n == 0 then q else AfterResponse(AfterResponses(q, resp, n - 1), resp)
  }

  /**
   * Each header-less response takes one from a positive count; once the count
   * reaches 0 it stays there and the tracker is exceeded and latched.
   */
  lemma {:induction false} HeaderlessCountdown(q: Quota, resp: ResponseMeta, n: nat)
    requires !HasQuotaHeaders(resp) && n > 0
    ensures AfterResponses(q, resp, n).info.remaining == Max(0, q.info.remaining - n)
    ensures AfterResponses(q, resp, n).info.limit == q.info.limit
    ensures q.info.remaining <= n ==>
      AfterResponses(q, resp, n).info.exceeded && AfterResponses(q, resp, n).latch
    ensures q.latch ==> AfterResponses(q, resp, n).latch
    decreases n
  {
    if n > 1 {
      HeaderlessCountdown(q, resp, n - 1);
    }
  }

  /**
   * Starting from the default snapshot (limit 10): five header-less responses
   * leave 5; ten reach 0 with the tracker exceeded; an eleventh stays at 0.
   */
  lemma DefaultQuotaExhaustion(resp: ResponseMeta)
    requires !HasQuotaHeaders(resp)
    ensures AfterResponses(Quota(DefaultInfo, false), resp, 5).info.remaining == 5
    ensures !Exceeded(AfterResponses(Quota(DefaultInfo, false), resp, 5))
    ensures AfterResponses(Quota(DefaultInfo, false), resp, 10).info.remaining == 0
    ensures AfterResponses(Quota(DefaultInfo, false), resp, 10).info.exceeded
    ensures Exceeded(AfterResponses(Quota(DefaultInfo, false), resp, 10))
    ensures AfterResponses(Quota(DefaultInfo, false), resp, 11).info.remaining == 0
    ensures Exceeded(AfterResponses(Quota(DefaultInfo, false), resp, 11))
  {
    var q := Quota(DefaultInfo, false);
    HeaderlessCountdown(q, resp, 5);
    HeaderlessCountdown(q, resp, 10);
    HeaderlessCountdown(q, resp, 11);
  }

  /** `resetRateLimitExceeded()`: clears the latch and the flag, and keeps `remaining`. */
  function AfterManualReset(q: Quota): (r: Quota)
    ensures !r.latch && !r.info.exceeded
    ensures r.info == q.info.(exceeded := false)
    ensures r.info.remaining == q.info.remaining
    ensures Exceeded(r) <==> q.info.remaining <= 0
  {
    Updated(Quota(q.info, false), NoFields.(exceeded := Some(false)))
  }

  /** `setRateLimitExceeded(exceeded)`. */
  function AfterSetExceeded(q: Quota, exceeded: bool): (r: Quota)
    ensures exceeded ==> r == Quota(q.info.(exceeded := true, remaining := 0), true)
    ensures !exceeded ==> r == AfterManualReset(q)
    ensures Exceeded(r) <==> exceeded || q.info.remaining <= 0
  {
    if exceeded then Updated(Quota(q.info, true), NoFields.(remaining := Some(0), exceeded := Some(true)))
    else AfterManualReset(Quota(q.info, false))
  }

  /** The 1-second check finds the latch set and its reset time reached. */
  predicate ResetDue(q: Quota, nowSec: int) {
    q.latch && q.info.reset > 0 && nowSec >= q.info.reset
  }

  /** `checkAndResetRateLimit()` on the snapshot and the latch. */
  function AfterCheck(q: Quota, nowSec: int): (r: Quota)
    ensures !ResetDue(q, nowSec) ==> r == q
    ensures ResetDue(q, nowSec) ==>
      && !r.latch && !r.info.exceeded
      && r.info.remaining == q.info.limit && r.info.reset == 0
      && r.info.limit == q.info.limit && r.info.resetTimeString == q.info.resetTimeString
      && r.info.isSearchAPI == q.info.isSearchAPI
  {
    if ResetDue(q, nowSec) then
      Quota(q.info.(exceeded := false, remaining := q.info.limit, reset := 0), false)
    else q
  }

  /**
   * With the latch set and a reset time `T`: before `T` the check changes
   * nothing and the tracker stays exceeded; from `T` on one check clears it
   * (as long as the limit it restores is positive).
   */
  lemma AutomaticReset(q: Quota, nowSec: int)
    requires q.latch && q.info.reset > 0
    ensures nowSec < q.info.reset ==> AfterCheck(q, nowSec) == q && Exceeded(AfterCheck(q, nowSec))
    ensures nowSec >= q.info.reset ==> (!Exceeded(AfterCheck(q, nowSec)) <==> q.info.limit > 0)
  {
  }

  /** `isRateLimitError(message)`. */
  predicate IsRateLimitError(message: string) {
    var lower := Lower(message);
    Contains(lower, "rate limit") || Contains(lower, "api rate") || Contains(lower, "api limit")
  }

  /** Classification ignores letter case. */
  lemma RateLimitErrorIgnoresCase(message: string)
    ensures IsRateLimitError(Lower(message)) == IsRateLimitError(message)
  {
    LowerIdempotent(message);
  }

  /** The phrase both rate-limit messages share. */
  const ExceededPhrase := "rate limit" + " exceeded"

  /** The message a blocked request fails with. */
  const RateLimitMessage := "GitHub API " + ExceededPhrase + ". Please try again later."

  /** The message the provider sends with a 403 when the quota is used up. */
  const ProviderRateLimitMessage := "API " + ExceededPhrase

  /** A message containing the phrase "rate limit" is a rate-limit error. */
  lemma RateLimitPhraseClassifies(before: string, after: string)
    ensures IsRateLimitError(before + "rate limit" + after)
  {
    var phrase := "rate limit";
    LowerAppend(before + phrase, after);
    LowerAppend(before, phrase);
    LowerKeepsLowercase(phrase);
    var lower := Lower(before + phrase + after);
    assert lower == Lower(before) + phrase + Lower(after);
    assert lower[|before|..|before| + |phrase|] == phrase;
    ContainsWitness(lower, phrase, |before|);
  }

  /** A message containing "rate limit exceeded" is a rate-limit error. */
  lemma ExceededPhraseClassifies(before: string, after: string)
    ensures IsRateLimitError(before + ExceededPhrase + after)
  {
    RateLimitPhraseClassifies(before, " exceeded" + after);
    assert before + ExceededPhrase + after == before + "rate limit" + (" exceeded" + after);
  }

  /** The blocked-request message and the provider's own message classify as rate-limit errors. */
  lemma RateLimitMessagesClassify()
    ensures IsRateLimitError(RateLimitMessage)
    ensures IsRateLimitError(ProviderRateLimitMessage)
  {
    ExceededPhraseClassifies("GitHub API ", ". Please try again later.");
    ExceededPhraseClassifies("API ", "");
    assert "API " + ExceededPhrase + "" == ProviderRateLimitMessage;
  }

  // ---------------------------------------------------------------------
  // Persistence
  // ---------------------------------------------------------------------

  /** `JSON.stringify(info)`. */
  function EncodeInfo(info: RateLimitInfo): string {
    EncodeInt(info.limit) + (EncodeInt(info.remaining) + (EncodeInt(info.reset)
    + (EncodeString(info.resetTimeString) + (EncodeBool(info.isSearchAPI) + EncodeBool(info.exceeded)))))
  }

  /** `JSON.parse` of the stored snapshot: `None` when the text does not parse. */
  function ParseInfo(s: string): Option<RateLimitInfo> {
    match DecodeInt(s)
    case None => None
    case Some((limit, s1)) =>
      match DecodeInt(s1)
      case None => None
      case Some((remaining, s2)) =>
        match DecodeInt(s2)
        case None => None
        case Some((reset, s3)) =>
          match DecodeString(s3)
          case None => None
          case Some((rts, s4)) =>
            match DecodeBool(s4)
            case None => None
            case Some((search, s5)) =>
              match DecodeBool(s5)
              case Some((exceeded, s6)) =>
                if s6 == [] then Some(RateLimitInfo(limit, remaining, reset, rts, search, exceeded)) else None
              case None => None
  }

  lemma ParseEncodedInfo(info: RateLimitInfo)
    ensures ParseInfo(EncodeInfo(info)) == Some(info)
  {
    var r6 := EncodeBool(info.exceeded);
    var r5 := EncodeBool(info.isSearchAPI) + r6;
    var r4 := EncodeString(info.resetTimeString) + r5;
    var r3 := EncodeInt(info.reset) + r4;
    var r2 := EncodeInt(info.remaining) + r3;
    var r1 := EncodeInt(info.limit) + r2;
    assert EncodeInfo(info) == r1;
    DecodeIntRoundTrip(info.limit, r2, r1);
    DecodeIntRoundTrip(info.remaining, r3, r2);
    DecodeIntRoundTrip(info.reset, r4, r3);
    DecodeStringRoundTrip(info.resetTimeString, r5, r4);
    DecodeBoolRoundTrip(info.isSearchAPI, r6, r5);
    assert r6 == r6 + [];
    DecodeBoolRoundTrip(info.exceeded, [], r6);
  }

  /** `String(exceeded)`. */
  function LatchText(latch: bool): string {
    if latch then "true" else "false"
  }

  /** The store after `saveRateLimitToStorage` succeeded. */
  function SavedEntries(entries: map<string, string>, q: Quota): map<string, string> {
    entries[RateLimitKey := EncodeInfo(q.info)][RateLimitExceededKey := LatchText(q.latch)]
  }

  /** The store after both tracker keys were removed. */
  function PurgedEntries(entries: map<string, string>): map<string, string> {
    entries - {RateLimitKey, RateLimitExceededKey}
  }

  /** The store after a save attempt (nothing changes when the store throws). */
  function Persisted(entries: map<string, string>, available: bool, q: Quota): map<string, string> {
    if available then SavedEntries(entries, q) else entries
  }

  /** The store after a removal attempt. */
  function Removed(entries: map<string, string>, available: bool): map<string, string> {
    if available then PurgedEntries(entries) else entries
  }

  /** The two tracker keys are the only keys the tracker writes or removes. */
  lemma PersistTouchesOnlyTrackerKeys(entries: map<string, string>, available: bool, q: Quota)
    ensures AgreeOutside(entries, Persisted(entries, available, q), {RateLimitKey, RateLimitExceededKey})
    ensures AgreeOutside(entries, Removed(entries, available), {RateLimitKey, RateLimitExceededKey})
  {
  }

  /**
   * The store holds either what it held before or the latest saved state:
   * every save writes the whole current state, so a later save overwrites an
   * earlier one.
   */
  ghost predicate Follows(before: map<string, string>, after: map<string, string>, available: bool, q: Quota) {
    after == before || after == Persisted(before, available, q)
  }

  lemma FollowsPersist(e0: map<string, string>, e1: map<string, string>, available: bool, q1: Quota, q2: Quota)
    requires Follows(e0, e1, available, q1)
    ensures Follows(e0, Persisted(e1, available, q2), available, q2)
  {
    if available && e1 != e0 {
      assert Persisted(e1, available, q2) == Persisted(e0, available, q2);
    }
  }

  /** A later save overwrites an earlier one. */
  lemma PersistedTwice(entries: map<string, string>, available: bool, q1: Quota, q2: Quota)
    ensures Persisted(Persisted(entries, available, q1), available, q2) == Persisted(entries, available, q2)
  {
  }

  /** What `loadRateLimitFromStorage` returns, and whether it removed the stored keys. */
  datatype Loaded = Loaded(info: Option<RateLimitInfo>, exceeded: bool, purged: bool)

  /**
   * `loadRateLimitFromStorage()`: a missing, empty or unparseable record reads
   * as absent; a record whose reset time has come is removed and reads as
   * absent; otherwise the record and the stored latch (`"true"`) are returned.
   */
  function Load(entries: map<string, string>, available: bool, nowSec: int): (r: Loaded)
    ensures r.purged ==> r.info.None? && !r.exceeded
    ensures r.info.Some? ==> !(0 < r.info.value.reset <= nowSec)
    ensures r.info.None? ==> !r.exceeded
    ensures (r.info.Some? || r.purged) <==>
      available && RateLimitKey in entries && entries[RateLimitKey] != ""
      && ParseInfo(entries[RateLimitKey]).Some?
    ensures r.purged <==>
      available && RateLimitKey in entries && entries[RateLimitKey] != ""
      && ParseInfo(entries[RateLimitKey]).Some?
      && 0 < ParseInfo(entries[RateLimitKey]).value.reset <= nowSec
  {
    if !available || RateLimitKey !in entries || entries[RateLimitKey] == "" then Loaded(None, false, false)
    else
      match ParseInfo(entries[RateLimitKey])
      case None => Loaded(None, false, false)
      case Some(info) =>
        var exceeded := RateLimitExceededKey in entries && entries[RateLimitExceededKey] == "true";
        if info.reset > 0 && nowSec >= info.reset then Loaded(None, false, true)
        else Loaded(Some(info), exceeded, false)
  }

  /**
   * The module's start-up state: the defaults when nothing was loaded, else the
   * loaded record and latch, with `exceeded` and `remaining` forced to
   * `true` and 0 when the latch is set but the record says otherwise.
   */
  function InitialQuota(l: Loaded): (r: Quota)
    ensures l.info.None? ==> r == Quota(DefaultInfo, false)
    ensures l.info.Some? ==> r.latch == l.exceeded
    ensures l.info.Some? && l.exceeded && !l.info.value.exceeded ==>
      r.info == l.info.value.(exceeded := true, remaining := 0)
    ensures l.info.Some? && !(l.exceeded && !l.info.value.exceeded) ==> r.info == l.info.value
    ensures r.latch ==> r.info.exceeded
  {
    match l.info
    case None => Quota(DefaultInfo, false)
    case Some(info) =>
      if l.exceeded && !info.exceeded then Quota(info.(exceeded := true, remaining := 0), true)
      else Quota(info, l.exceeded)
  }

  /**
   * The check that runs right after start-up reads the clock a second time. It
   * can only fire when the loaded record's reset time falls after the load's
   * reading and no later than the check's: a record already due at load time
   * was purged. So when both readings fall in the same second, or the check's
   * is not later, it never fires.
   */
  lemma StartupCheckFiresOnlyAcrossReset(entries: map<string, string>, available: bool, loadSec: int, checkSec: int)
    ensures var q := InitialQuota(Load(entries, available, loadSec));
      ResetDue(q, checkSec) ==> q.latch && loadSec < q.info.reset <= checkSec
    ensures checkSec <= loadSec ==> !ResetDue(InitialQuota(Load(entries, available, loadSec)), checkSec)
  {
  }

  /**
   * The start-up check does fire when its reading crosses the reset time of a
   * latched record that was not yet due at load time: the reload restores the
   * latched state and the check then clears it.
   */
  lemma StartupCheckCanFire(entries: map<string, string>, q: Quota, loadSec: int, checkSec: int)
    requires q.latch && q.info.exceeded && 0 < q.info.reset && loadSec < q.info.reset <= checkSec
    ensures var loaded := InitialQuota(Load(SavedEntries(entries, q), true, loadSec));
      && loaded == q && ResetDue(loaded, checkSec)
      && AfterCheck(loaded, checkSec) == Quota(q.info.(exceeded := false, remaining := q.info.limit, reset := 0), false)
  {
    ReloadRestoresQuota(entries, q, loadSec);
  }

  /**
   * A saved state survives a reload: when the latch implies the flag and the
   * reset time has not come, loading what was saved restores the same state.
   */
  lemma {:induction false} ReloadRestoresQuota(entries: map<string, string>, q: Quota, nowSec: int)
    requires q.latch ==> q.info.exceeded
    requires !(0 < q.info.reset <= nowSec)
    ensures Load(SavedEntries(entries, q), true, nowSec) == Loaded(Some(q.info), q.latch, false)
    ensures InitialQuota(Load(SavedEntries(entries, q), true, nowSec)) == q
  {
    var saved := SavedEntries(entries, q);
    var text := EncodeInfo(q.info);
    ParseEncodedInfo(q.info);
    assert |EncodeInt(q.info.limit)| > 0;
    assert saved[RateLimitKey] == text && text != "";
    assert saved[RateLimitExceededKey] == LatchText(q.latch);
    assert (LatchText(q.latch) == "true") == q.latch;
    LoadParsed(saved, nowSec, text, q.info);
  }

  /** A present, parseable record whose reset time has not come loads as itself, with the stored latch. */
  lemma LoadParsed(entries: map<string, string>, nowSec: int, text: string, info: RateLimitInfo)
    requires RateLimitKey in entries && entries[RateLimitKey] == text && text != ""
    requires ParseInfo(text) == Some(info) && !(0 < info.reset <= nowSec)
    ensures Load(entries, true, nowSec) ==
      Loaded(Some(info), RateLimitExceededKey in entries && entries[RateLimitExceededKey] == "true", false)
  {
  }

  // ---------------------------------------------------------------------
  // Subscribers
  // ---------------------------------------------------------------------

  /** A subscriber callback, by identity. */
  type Subscriber = nat

  /** One call of a subscriber callback with a copy of the snapshot. */
  datatype Delivery = Delivery(to: Subscriber, snapshot: RateLimitInfo)

  /** `notifySubscribers()`: every subscriber, in order, gets the snapshot. */
  function Broadcast(subscribers: seq<Subscriber>, snapshot: RateLimitInfo): (r: seq<Delivery>)
    ensures |r| == |subscribers|
    ensures forall i :: 0 <= i < |r| ==> r[i] == Delivery(subscribers[i], snapshot)
    decreases |subscribers|
  {
    if subscribers == [] then []
    else Broadcast(subscribers[..|subscribers| - 1], snapshot) + [Delivery(subscribers[|subscribers| - 1], snapshot)]
  }

  /** Several notifications in a row: each snapshot in turn is delivered to every subscriber. */
  function Broadcasts(subscribers: seq<Subscriber>, snapshots: seq<RateLimitInfo>): (r: seq<Delivery>)
    ensures snapshots == [] ==> r == []
    ensures |snapshots| == 1 ==> r == Broadcast(subscribers, snapshots[0])
    decreases |snapshots|
  {
    if snapshots == [] then []
    else Broadcasts(subscribers, snapshots[..|snapshots| - 1]) + Broadcast(subscribers, snapshots[|snapshots| - 1])
  }

  /** One more notification appends one more broadcast. */
  lemma BroadcastsSnoc(subscribers: seq<Subscriber>, snapshots: seq<RateLimitInfo>, x: RateLimitInfo)
    ensures Broadcasts(subscribers, snapshots + [x]) == Broadcasts(subscribers, snapshots) + Broadcast(subscribers, x)
  {
    assert (snapshots + [x])[..|snapshots|] == snapshots;
  }

  /** The deliveries after one more notification, as the broadcasts of the longer run. */
  lemma DeliveredSnoc(delivered: seq<Delivery>, subscribers: seq<Subscriber>, snapshots: seq<RateLimitInfo>, x: RateLimitInfo)
    ensures delivered + Broadcasts(subscribers, snapshots) + Broadcast(subscribers, x)
         == delivered + Broadcasts(subscribers, snapshots + [x])
  {
    BroadcastsSnoc(subscribers, snapshots, x);
  }

  /** The deliveries after two runs of notifications, as the broadcasts of the joined run. */
  lemma DeliveredAppend(delivered: seq<Delivery>, subscribers: seq<Subscriber>, a: seq<RateLimitInfo>, b: seq<RateLimitInfo>)
    ensures delivered + Broadcasts(subscribers, a) + Broadcasts(subscribers, b)
         == delivered + Broadcasts(subscribers, a + b)
  {
    BroadcastsAppend(subscribers, a, b);
  }

  /** Notifications of two runs in a row are the broadcasts of both runs, in order. */
  lemma {:induction false} BroadcastsAppend(subscribers: seq<Subscriber>, a: seq<RateLimitInfo>, b: seq<RateLimitInfo>)
    ensures Broadcasts(subscribers, a + b) == Broadcasts(subscribers, a) + Broadcasts(subscribers, b)
    decreases |b|
  {
    if b == [] {
      assert a + b == a;
    } else {
      var init := b[..|b| - 1];
      var x := b[|b| - 1];
      assert b == init + [x];
      assert a + b == (a + init) + [x];
      calc {
        Broadcasts(subscribers, a + b);
        { BroadcastsSnoc(subscribers, a + init, x); }
        Broadcasts(subscribers, a + init) + Broadcast(subscribers, x);
        { BroadcastsAppend(subscribers, a, init); }
        Broadcasts(subscribers, a) + Broadcasts(subscribers, init) + Broadcast(subscribers, x);
        { BroadcastsSnoc(subscribers, init, x); }
        Broadcasts(subscribers, a) + Broadcasts(subscribers, b);
      }
    }
  }

  /** `array.indexOf(x)`: the first position of `x`, or -1. */
  method IndexOf(s: seq<Subscriber>, x: Subscriber) returns (i: int)
    ensures -1 <= i < |s|
    ensures i == -1 <==> x !in s
    ensures i >= 0 ==> s[i] == x && x !in s[..i]
  {
    i := 0;
    while i < |s|
      invariant 0 <= i <= |s|
      invariant x !in s[..i]
    {
      if s[i] == x {
        return;
      }
      i := i + 1;
    }
    assert s[..i] == s;
    i := -1;
  }

  /** The list with the first occurrence of `x` removed. */
  function RemoveFirst(s: seq<Subscriber>, x: Subscriber): seq<Subscriber>
    decreases |s|
  {
    if s == [] then []
    else if s[0] == x then s[1..]
    else [s[0]] + RemoveFirst(s[1..], x)
  }

  /** Splicing out the first occurrence is `RemoveFirst`. */
  lemma {:induction false} RemoveFirstIsSplice(s: seq<Subscriber>, x: Subscriber, i: nat)
    requires i < |s| && s[i] == x && x !in s[..i]
    ensures RemoveFirst(s, x) == s[..i] + s[i + 1..]
    decreases i
  {
    if i > 0 {
      assert s[0] != x by { assert s[0] == s[..i][0]; }
      assert s[1..][..i - 1] == s[1..i];
      RemoveFirstIsSplice(s[1..], x, i - 1);
      assert s[..i] == [s[0]] + s[1..i];
    }
  }

  /** Without an occurrence, removing changes nothing. */
  lemma {:induction false} RemoveFirstAbsent(s: seq<Subscriber>, x: Subscriber)
    requires x !in s
    ensures RemoveFirst(s, x) == s
    decreases |s|
  {
    if s != [] {
      assert s[1..] + [] == s[1..] && x !in s[1..];
      RemoveFirstAbsent(s[1..], x);
      assert [s[0]] + s[1..] == s;
    }
  }

  /** Removing takes exactly one `x` out of the multiset of callbacks. */
  lemma {:induction false} RemoveFirstMultiset(s: seq<Subscriber>, x: Subscriber)
    ensures multiset(RemoveFirst(s, x)) == multiset(s) - multiset{x}
    decreases |s|
  {
    if s != [] {
      var t := s[1..];
      assert s == [s[0]] + t;
      RemoveFirstMultiset(t, x);
      if s[0] != x {
        assert multiset(RemoveFirst(s, x)) == multiset{s[0]} + multiset(RemoveFirst(t, x));
      }
    }
  }

  /**
   * The disposer removes exactly one occurrence of its callback and keeps the
   * order of the others; with no occurrence left it changes nothing.
   */
  lemma RemoveFirstRemovesOne(s: seq<Subscriber>, x: Subscriber)
    ensures x !in s ==> RemoveFirst(s, x) == s
    ensures multiset(RemoveFirst(s, x)) == multiset(s) - multiset{x}
    ensures x in s ==> |RemoveFirst(s, x)| == |s| - 1
  {
    RemoveFirstMultiset(s, x);
    if x !in s {
      RemoveFirstAbsent(s, x);
    } else {
      assert x in multiset(s);
      assert |multiset(RemoveFirst(s, x))| == |multiset(s)| - 1;
    }
  }

  /** Idempotence of a merge: applying the same update twice is applying it once. */
  lemma MergeIdempotent(info: RateLimitInfo, u: InfoUpdate)
    ensures Merge(Merge(info, u), u) == Merge(info, u)
  {
  }

  // ---------------------------------------------------------------------
  // The tracker
  // ---------------------------------------------------------------------

  /** `Math.floor(Date.now() / 1000)`; `/` on `int` floors for a positive divisor. */
  function Seconds(nowMs: int): int {
    nowMs / 1000
  }

  class RateLimitTracker {
    var info: RateLimitInfo
    var latch: bool
    var subscribers: seq<Subscriber>
    /** Every callback invocation so far, in order. */
    var delivered: seq<Delivery>
    /** `resetCheckInterval !== null`. */
    var intervalStarted: bool
    const storage: Store

    function CurrentQuota(): Quota
      reads this
    {
      Quota(info, latch)
    }

    /** `getIsRateLimitExceeded()`. */
    predicate IsExceeded()
      reads this
    {
      Exceeded(CurrentQuota())
    }

    /**
     * Module start-up: load the stored record with the clock reading `loadMs`
     * (dropping it when its reset time has come), start the 1-second check,
     * and run the check once with the clock reading `checkMs`.
     */
    constructor (store: Store, loadMs: int, checkMs: int)
      modifies store
      ensures storage == store
      ensures CurrentQuota() ==
        AfterCheck(InitialQuota(Load(old(store.entries), old(store.available), Seconds(loadMs))), Seconds(checkMs))
      ensures store.available == old(store.available)
      ensures var loaded := Load(old(store.entries), old(store.available), Seconds(loadMs));
        var afterLoad := if loaded.purged then PurgedEntries(old(store.entries)) else old(store.entries);
        store.entries ==
          if ResetDue(InitialQuota(loaded), Seconds(checkMs)) then Removed(afterLoad, store.available) else afterLoad
      ensures subscribers == [] && delivered == [] && intervalStarted
    {
      var loaded := Load(store.entries, store.available, Seconds(loadMs));
      var q := InitialQuota(loaded);
      storage := store;
      info := q.info;
      latch := q.latch;
      subscribers := [];
      delivered := [];
      intervalStarted := false;
      new;
      if loaded.purged {
        Purge();
      }
      StartResetCheckInterval();
      var _ := CheckAndResetRateLimit(checkMs);
    }

    /** `saveRateLimitToStorage(currentRateLimit, isRateLimitExceeded)`. */
    method Save()
      modifies storage
      ensures storage.available == old(storage.available)
      ensures storage.entries == Persisted(old(storage.entries), storage.available, CurrentQuota())
    {
      var ok := storage.SetItem(RateLimitKey, EncodeInfo(info));
      if ok {
        ok := storage.SetItem(RateLimitExceededKey, LatchText(latch));
      }
    }

    /** Removes both tracker keys, ignoring a store that throws. */
    method Purge()
      modifies storage
      ensures storage.available == old(storage.available)
      ensures storage.entries == Removed(old(storage.entries), storage.available)
    {
      storage.RemoveItem(RateLimitKey);
      storage.RemoveItem(RateLimitExceededKey);
    }

    /** `notifySubscribers()`. */
    method NotifySubscribers()
      modifies this`delivered
      ensures delivered == old(delivered) + Broadcast(subscribers, info)
    {
      var i := 0;
      while i < |subscribers|
        invariant 0 <= i <= |subscribers|
        invariant delivered == old(delivered) + Broadcast(subscribers[..i], info)
      {
        assert subscribers[..i + 1][..i] == subscribers[..i];
        delivered := delivered + [Delivery(subscribers[i], info)];
        i := i + 1;
      }
      assert subscribers[..i] == subscribers;
    }

    /** `updateRateLimitInfo(updates)`: merge, maybe latch, save, notify. */
    method UpdateRateLimitInfo(u: InfoUpdate)
      modifies this, storage
      ensures CurrentQuota() == Updated(old(CurrentQuota()), u)
      ensures subscribers == old(subscribers) && intervalStarted == old(intervalStarted)
      ensures delivered == old(delivered) + Broadcast(subscribers, info)
      ensures storage.available == old(storage.available)
      ensures storage.entries == Persisted(old(storage.entries), storage.available, CurrentQuota())
    {
      info := Merge(info, u);
      if u.remaining.Some? && u.remaining.value <= 0 {
        info := info.(exceeded := true);
        latch := true;
      }
      Save();
      NotifySubscribers();
    }

    /** `extractRateLimitInfo(response)`. */
    method ExtractRateLimitInfo(resp: ResponseMeta)
      modifies this, storage
      ensures CurrentQuota() == AfterResponse(old(CurrentQuota()), resp)
      ensures subscribers == old(subscribers) && intervalStarted == old(intervalStarted)
      ensures delivered == old(delivered) + Broadcast(subscribers, info)
      ensures storage.available == old(storage.available)
      ensures storage.entries == Persisted(old(storage.entries), storage.available, CurrentQuota())
    {
      var newRemaining := Max(0, info.remaining - 1);
      var isSearchRequest := Contains(resp.url, "/search/");
      if HasQuotaHeaders(resp) {
        var actualRemaining := Min(newRemaining, resp.remainingHeader.value);
        UpdateRateLimitInfo(InfoUpdate(resp.limitHeader, Some(actualRemaining), resp.resetHeader,
          Some(resp.localeResetTime), Some(isSearchRequest), Some(actualRemaining <= 0)));
      } else {
        UpdateRateLimitInfo(InfoUpdate(None, Some(newRemaining), None, None,
          Some(isSearchRequest), Some(newRemaining <= 0)));
      }
    }

    /** `resetRateLimitExceeded()`: clear the latch and flag, save and notify, then remove both keys. */
    method ResetRateLimitExceeded()
      modifies this, storage
      ensures CurrentQuota() == AfterManualReset(old(CurrentQuota()))
      ensures subscribers == old(subscribers) && intervalStarted == old(intervalStarted)
      ensures delivered == old(delivered) + Broadcast(subscribers, info)
      ensures storage.available == old(storage.available)
      ensures storage.entries == Removed(old(storage.entries), storage.available)
    {
      latch := false;
      UpdateRateLimitInfo(NoFields.(exceeded := Some(false)));
      Purge();
    }

    /** `setRateLimitExceeded(exceeded)`. */
    method SetRateLimitExceeded(exceeded: bool)
      modifies this, storage
      ensures CurrentQuota() == AfterSetExceeded(old(CurrentQuota()), exceeded)
      ensures subscribers == old(subscribers) && intervalStarted == old(intervalStarted)
      ensures delivered == old(delivered) + Broadcast(subscribers, info)
      ensures storage.available == old(storage.available)
      ensures storage.entries ==
        if exceeded then Persisted(old(storage.entries), storage.available, CurrentQuota())
        else Removed(old(storage.entries), storage.available)
    {
      latch := exceeded;
      if exceeded {
        UpdateRateLimitInfo(NoFields.(remaining := Some(0), exceeded := Some(true)));
      } else {
        ResetRateLimitExceeded();
      }
    }

    /** `checkAndResetRateLimit()`, run with the clock reading `nowMs`. */
    method CheckAndResetRateLimit(nowMs: int) returns (didReset: bool)
      modifies this, storage
      ensures didReset == ResetDue(old(CurrentQuota()), Seconds(nowMs))
      ensures CurrentQuota() == AfterCheck(old(CurrentQuota()), Seconds(nowMs))
      ensures subscribers == old(subscribers) && intervalStarted == old(intervalStarted)
      ensures delivered == old(delivered) + if didReset then Broadcast(subscribers, info) else []
      ensures storage.available == old(storage.available)
      ensures storage.entries ==
        if didReset then Removed(old(storage.entries), storage.available) else old(storage.entries)
    {
      if !latch {
        return false;
      }
      var now := Seconds(nowMs);
      if info.reset > 0 && now >= info.reset {
        latch := false;
        info := info.(exceeded := false, remaining := info.limit, reset := 0);
        Purge();
        NotifySubscribers();
        return true;
      }
      return false;
    }

    /** `startResetCheckInterval()`: starts the 1-second check only once. */
    method StartResetCheckInterval()
      modifies this`intervalStarted
      ensures intervalStarted
    {
      if !intervalStarted {
        intervalStarted := true;
      }
    }

    /** One firing of the 1-second interval: it runs the check when the interval exists. */
    method Tick(nowMs: int)
      modifies this, storage
      ensures CurrentQuota() == if intervalStarted then AfterCheck(old(CurrentQuota()), Seconds(nowMs)) else old(CurrentQuota())
      ensures subscribers == old(subscribers) && intervalStarted == old(intervalStarted)
      ensures storage.available == old(storage.available)
      ensures var due := old(intervalStarted) && ResetDue(old(CurrentQuota()), Seconds(nowMs));
        delivered == old(delivered) + if due then Broadcast(subscribers, info) else []
      ensures var due := old(intervalStarted) && ResetDue(old(CurrentQuota()), Seconds(nowMs));
        storage.entries == if due then Removed(old(storage.entries), storage.available) else old(storage.entries)
    {
      if intervalStarted {
        var _ := CheckAndResetRateLimit(nowMs);
      }
    }

    /**
     * `subscribeToRateLimitChanges(callback)`: append the callback and call it
     * once, before returning, with a copy of the current snapshot.
     */
    method Subscribe(callback: Subscriber)
      modifies this`subscribers, this`delivered
      ensures subscribers == old(subscribers) + [callback]
      ensures delivered == old(delivered) + [Delivery(callback, info)]
    {
      subscribers := subscribers + [callback];
      delivered := delivered + [Delivery(callback, info)];
    }

    /** The disposer returned by `Subscribe`: removes the first occurrence of the callback. */
    method Unsubscribe(callback: Subscriber)
      modifies this`subscribers
      ensures subscribers == RemoveFirst(old(subscribers), callback)
    {
      var index := IndexOf(subscribers, callback);
      if index != -1 {
        RemoveFirstIsSplice(subscribers, callback, index);
        subscribers := subscribers[..index] + subscribers[index + 1..];
      } else {
        RemoveFirstRemovesOne(subscribers, callback);
      }
    }
  }
}
