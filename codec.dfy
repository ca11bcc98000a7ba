/**
 * The text form of the records kept in the key-value store. The system writes
 * them with `JSON.stringify` and reads them with `JSON.parse`; this model
 * replaces JSON by a self-delimiting encoding (decimal numbers ended by `;`,
 * strings prefixed by their length) whose decoder is partial: text that was
 * not produced by the encoder may be rejected, and everything the encoder
 * produces decodes back to the value it came from.
 */
module Codec {
  import opened Wrappers
  import opened Strings
  import opened Types

  // ---------------------------------------------------------------------
  // Numbers
  // ---------------------------------------------------------------------

  function EncodeNat(n: nat): string {
    NatToString(n) + ";"
  }

  /** The length of the run of decimal digits `s` starts with. */
  function DigitRun(s: string): (k: nat)
    ensures k <= |s| && AllDigits(s[..k])
    ensures k < |s| ==> !IsDigit(s[k])
    decreases |s|
  {
    if |s| > 0 && IsDigit(s[0]) then
      var k := 1 + DigitRun(s[1..]);
      assert s[..k] == [s[0]] + s[1..][..k - 1];
      k
    else 0
  }

  lemma {:induction false} DigitRunOf(d: string, rest: string)
    requires AllDigits(d)
    requires rest == [] || !IsDigit(rest[0])
    ensures DigitRun(d + rest) == |d|
    decreases |d|
  {
    if |d| > 0 {
      assert (d + rest)[1..] == d[1..] + rest;
      DigitRunOf(d[1..], rest);
    }
  }

  function DecodeNat(s: string): Option<(nat, string)> {
    var k := DigitRun(s);
    if 0 < k < |s| && s[k] == ';' then Some((ParseNat(s[..k]), s[k + 1..])) else None
  }

  /** A text that starts with a number's encoding reads as that number; so do the lemmas below for their types. */
  lemma DecodeNatRoundTrip(n: nat, rest: string, s: string)
    requires s == EncodeNat(n) + rest
    ensures DecodeNat(s) == Some((n, rest))
  {
    var d := NatToString(n);
    assert s == d + ([';'] + rest);
    DigitRunOf(d, [';'] + rest);
    assert s[..|d|] == d;
    ParseNatToString(n);
    assert s[|d| + 1..] == rest;
  }

  function EncodeInt(i: int): string {
    if i < 0 then "-" + EncodeNat(-i) else "+" + EncodeNat(i)
  }

  function DecodeInt(s: string): Option<(int, string)> {
    if |s| > 0 && (s[0] == '+' || s[0] == '-') then
      match DecodeNat(s[1..])
      case Some((n, rest)) =>
        var m: int := n;
        Some((if s[0] == '-' then -m else m, rest))
      case None => None
    else None
  }

  /** A sign followed by a readable number reads as the signed number. */
  lemma DecodeSigned(s: string, n: nat, rest: string)
    requires |s| > 0 && (s[0] == '+' || s[0] == '-')
    requires DecodeNat(s[1..]) == Some((n, rest))
    ensures DecodeInt(s) == Some((if s[0] == '-' then -(n as int) else n as int, rest))
  {
  }

  lemma DecodeIntRoundTrip(i: int, rest: string, s: string)
    requires s == EncodeInt(i) + rest
    ensures DecodeInt(s) == Some((i, rest))
  {
    var n: nat := if i < 0 then -i else i;
    var t := s[1..];
    assert s[0] == (if i < 0 then '-' else '+') && t == EncodeNat(n) + rest;
    DecodeNatRoundTrip(n, rest, t);
    DecodeSigned(s, n, rest);
  }

  // ---------------------------------------------------------------------
  // Strings, flags, optional strings
  // ---------------------------------------------------------------------

  function EncodeString(t: string): string {
    EncodeNat(|t|) + t
  }

  function DecodeString(s: string): Option<(string, string)> {
    match DecodeNat(s)
    case Some((n, rest)) => if n <= |rest| then Some((rest[..n], rest[n..])) else None
    case None => None
  }

  lemma DecodeStringRoundTrip(t: string, rest: string, s: string)
    requires s == EncodeString(t) + rest
    ensures DecodeString(s) == Some((t, rest))
  {
    var u := t + rest;
    assert s == EncodeNat(|t|) + u;
    DecodeNatRoundTrip(|t|, u, s);
    assert u[..|t|] == t;
    assert u[|t|..] == rest;
  }

  function EncodeBool(b: bool): string {
    if b then "t" else "f"
  }

  function DecodeBool(s: string): Option<(bool, string)> {
    if |s| > 0 && (s[0] == 't' || s[0] == 'f') then Some((s[0] == 't', s[1..])) else None
  }

  lemma DecodeBoolRoundTrip(b: bool, rest: string, s: string)
    requires s == EncodeBool(b) + rest
    ensures DecodeBool(s) == Some((b, rest))
  {
    assert s[1..] == rest;
  }

  function EncodeOptString(o: Option<string>): string {
    match o
    case None => "n"
    case Some(t) => "s" + EncodeString(t)
  }

  function DecodeOptString(s: string): Option<(Option<string>, string)> {
    if |s| > 0 && s[0] == 'n' then Some((None, s[1..]))
    else if |s| > 0 && s[0] == 's' then
      match DecodeString(s[1..])
      case Some((t, rest)) => Some((Some(t), rest))
      case None => None
    else None
  }

  lemma DecodeNoneRoundTrip(rest: string, s: string)
    requires s == EncodeOptString(None) + rest
    ensures DecodeOptString(s) == Some((None, rest))
  {
    assert s[1..] == rest;
  }

  /** `s` followed by a readable string reads as that string. */
  lemma DecodeSomeRoundTrip(t: string, rest: string, s: string)
    requires |s| > 0 && s[0] == 's' && s[1..] == EncodeString(t) + rest
    ensures DecodeOptString(s) == Some((Some(t), rest))
  {
    DecodeStringRoundTrip(t, rest, s[1..]);
  }

  lemma DecodeOptStringRoundTrip(o: Option<string>, rest: string, s: string)
    requires s == EncodeOptString(o) + rest
    ensures DecodeOptString(s) == Some((o, rest))
  {
    match o
    case None => DecodeNoneRoundTrip(rest, s);
    case Some(t) =>
      assert s[1..] == EncodeString(t) + rest;
      DecodeSomeRoundTrip(t, rest, s);
  }

  // ---------------------------------------------------------------------
  // Result items and cache entries
  // ---------------------------------------------------------------------

  function EncodeKind(k: ItemType): string {
    if k == User then "u" else "r"
  }

  function EncodeItem(x: ResultItem): string {
    EncodeString(x.id) + (EncodeString(x.name) + (EncodeKind(x.kind)
    + (EncodeString(x.url) + (EncodeString(x.avatarUrl) + EncodeOptString(x.description)))))
  }

  function DecodeItem(s: string): Option<(ResultItem, string)> {
    match DecodeString(s)
    case None => None
    case Some((id, s1)) =>
      match DecodeString(s1)
      case None => None
      case Some((name, s2)) =>
        if |s2| == 0 || (s2[0] != 'u' && s2[0] != 'r') then None
        else
          var kind := if s2[0] == 'u' then User else Repository;
          match DecodeString(s2[1..])
          case None => None
          case Some((url, s3)) =>
            match DecodeString(s3)
            case None => None
            case Some((avatar, s4)) =>
              match DecodeOptString(s4)
              case None => None
              case Some((desc, s5)) => Some((ResultItem(id, name, kind, url, avatar, desc), s5))
  }

  lemma DecodeItemRoundTrip(x: ResultItem, rest: string, s: string)
    requires s == EncodeItem(x) + rest
    ensures DecodeItem(s) == Some((x, rest))
  {
    var r5 := EncodeOptString(x.description) + rest;
    var r4 := EncodeString(x.avatarUrl) + r5;
    var r3 := EncodeString(x.url) + r4;
    var r2 := EncodeKind(x.kind) + r3;
    var r1 := EncodeString(x.name) + r2;
    assert s == EncodeString(x.id) + r1;
    DecodeStringRoundTrip(x.id, r1, s);
    DecodeStringRoundTrip(x.name, r2, r1);
    assert r2[0] == (if x.kind == User then 'u' else 'r') && r2[1..] == r3;
    DecodeStringRoundTrip(x.url, r4, r2[1..]);
    DecodeStringRoundTrip(x.avatarUrl, r5, r4);
    DecodeOptStringRoundTrip(x.description, rest, r5);
  }

  function EncodeItems(xs: seq<ResultItem>): string
    decreases |xs|
  {
    if xs == [] then "" else EncodeItem(xs[0]) + EncodeItems(xs[1..])
  }

  /** Reads `count` items one after the other. */
  function DecodeItems(count: nat, s: string): Option<(seq<ResultItem>, string)>
    decreases count
  {
    if count == 0 then Some(([], s))
    else
      match DecodeItem(s)
      case None => None
      case Some((x, s1)) =>
        match DecodeItems(count - 1, s1)
        case None => None
        case Some((xs, s2)) => Some(([x] + xs, s2))
  }

  /** The encoding of a non-empty list is the first item's followed by the others'. */
  lemma EncodeItemsCons(xs: seq<ResultItem>, rest: string)
    requires xs != []
    ensures EncodeItems(xs) + rest == EncodeItem(xs[0]) + (EncodeItems(xs[1..]) + rest)
  {
  }

  /** Reading one item and then `count - 1` more. */
  lemma DecodeItemsCons(count: nat, s: string, x: ResultItem, s1: string, xs: seq<ResultItem>, s2: string)
    requires count > 0
    requires DecodeItem(s) == Some((x, s1))
    requires DecodeItems(count - 1, s1) == Some((xs, s2))
    ensures DecodeItems(count, s) == Some(([x] + xs, s2))
  {
  }

  /** An item's encoding followed by `count - 1` readable items reads as `count` items. */
  lemma DecodeItemsAfterItem(count: nat, x: ResultItem, ys: seq<ResultItem>, rest: string, tail: string, s: string)
    requires count > 0
    requires s == EncodeItem(x) + tail
    requires DecodeItems(count - 1, tail) == Some((ys, rest))
    ensures DecodeItems(count, s) == Some(([x] + ys, rest))
  {
    DecodeItemRoundTrip(x, tail, s);
    DecodeItemsCons(count, s, x, tail, ys, rest);
  }

  lemma DecodeItemsFirst(xs: seq<ResultItem>, rest: string, tail: string, s: string)
    requires xs != [] && s == EncodeItem(xs[0]) + tail
    requires DecodeItems(|xs| - 1, tail) == Some((xs[1..], rest))
    ensures DecodeItems(|xs|, s) == Some((xs, rest))
  {
    DecodeItemsAfterItem(|xs|, xs[0], xs[1..], rest, tail, s);
    assert [xs[0]] + xs[1..] == xs;
  }

  /** The induction step: the list's encoding reads as the list once its tail's does. */
  lemma DecodeItemsStep(xs: seq<ResultItem>, rest: string, s: string)
    requires xs != [] && s == EncodeItems(xs) + rest
    requires DecodeItems(|xs[1..]|, EncodeItems(xs[1..]) + rest) == Some((xs[1..], rest))
    ensures DecodeItems(|xs|, s) == Some((xs, rest))
  {
    assert |xs[1..]| == |xs| - 1;
    EncodeItemsCons(xs, rest);
    DecodeItemsFirst(xs, rest, EncodeItems(xs[1..]) + rest, s);
  }

  /** The encoding of a list, followed by anything, reads back as the list. */
  lemma {:induction false} DecodeItemsRoundTrip(xs: seq<ResultItem>, rest: string, s: string)
    requires s == EncodeItems(xs) + rest
    ensures DecodeItems(|xs|, s) == Some((xs, rest))
    decreases |xs|
  {
    if xs == [] {
      assert s == rest;
    } else {
      DecodeItemsRoundTrip(xs[1..], rest, EncodeItems(xs[1..]) + rest);
      DecodeItemsStep(xs, rest, s);
    }
  }

  function EncodeItemList(xs: seq<ResultItem>): string {
    EncodeNat(|xs|) + EncodeItems(xs)
  }

  function DecodeItemList(s: string): Option<(seq<ResultItem>, string)> {
    match DecodeNat(s)
    case None => None
    case Some((n, rest)) => DecodeItems(n, rest)
  }

  lemma DecodeItemListRoundTrip(xs: seq<ResultItem>, rest: string, s: string)
    requires s == EncodeItemList(xs) + rest
    ensures DecodeItemList(s) == Some((xs, rest))
  {
    var u := EncodeItems(xs) + rest;
    assert s == EncodeNat(|xs|) + u;
    DecodeNatRoundTrip(|xs|, u, s);
    DecodeItemsRoundTrip(xs, rest, u);
  }

  /** `JSON.stringify(cacheItem)`. */
  function SerializeCacheItem(c: CacheItem): string {
    EncodeInt(c.timestamp) + EncodeItemList(c.results)
  }

  /** `JSON.parse` of a stored cache entry: `None` when the text does not parse. */
  function ParseCacheItem(s: string): Option<CacheItem> {
    match DecodeInt(s)
    case None => None
    case Some((ts, s1)) =>
      match DecodeItemList(s1)
      case Some((xs, rest)) => if rest == [] then Some(CacheItem(ts, xs)) else None
      case None => None
  }

  /** A stored cache entry reads back as the entry that was stored. */
  lemma ParseSerializedCacheItem(c: CacheItem)
    ensures ParseCacheItem(SerializeCacheItem(c)) == Some(c)
  {
    var tail := EncodeItemList(c.results);
    DecodeIntRoundTrip(c.timestamp, tail, SerializeCacheItem(c));
    assert tail == tail + [];
    DecodeItemListRoundTrip(c.results, [], tail);
  }

  /** The empty string, and text with no leading number, do not parse. */
  lemma ParseRejectsMalformed(s: string)
    requires s == [] || (s[0] != '+' && s[0] != '-')
    ensures ParseCacheItem(s) == None
  {
  }
}
