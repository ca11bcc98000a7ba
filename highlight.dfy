/**
 * `highlightText(text, query)` of `src/utils/highlightText.tsx`: the query is
 * escaped into a literal pattern, the text is split around its
 * case-insensitive occurrences (the split keeps the matched pieces, since the
 * pattern is one capturing group), and the pieces equal to the query
 * ignoring case are highlighted. Letter case is ASCII only.
 */
module Highlight {
  import opened Wrappers
  import opened Strings

  /** The characters the escape prefixes with a backslash. */
  const RegExpSpecials: set<char> := {'.', '*', '+', '?', '^', '$', '{', '}', '(', ')', '|', '[', ']', '\\'}

  /** `query.replace(/[.*+?^${}()|[\]\\]/g, '\\$&')`. */
  function EscapeRegExp(q: string): (r: string)
    ensures |r| >= |q|
    decreases |q|
  {
    if q == [] then []
    else (if q[0] in RegExpSpecials then ['\\', q[0]] else [q[0]]) + EscapeRegExp(q[1..])
  }

  /**
   * The literal a pattern matches, when it is one: plain characters, and
   * special characters each behind a backslash. A lone trailing backslash is a
   * syntax error, and an unescaped special character or any other escape is
   * not a literal; those give `None`.
   */
  function LiteralOf(p: string): (r: Option<string>)
    decreases |p|
  {
    if p == [] then Some([])
    else if p[0] == '\\' then
      if |p| >= 2 && p[1] in RegExpSpecials then
        match LiteralOf(p[2..])
        case Some(rest) => Some([p[1]] + rest)
        case None => None
      else None
    else if p[0] in RegExpSpecials then None
    else
      match LiteralOf(p[1..])
      case Some(rest) => Some([p[0]] + rest)
      case None => None
  }

  /** The escaped query is a literal pattern for exactly the query: the `catch` branch is never taken. */
  lemma {:induction false} EscapedQueryIsLiteral(q: string)
    ensures LiteralOf(EscapeRegExp(q)) == Some(q)
    decreases |q|
  {
    if q != [] {
      EscapedQueryIsLiteral(q[1..]);
      var e := EscapeRegExp(q);
      if q[0] in RegExpSpecials {
        assert e == ['\\', q[0]] + EscapeRegExp(q[1..]);
        assert e[2..] == EscapeRegExp(q[1..]);
      } else {
        assert e == [q[0]] + EscapeRegExp(q[1..]);
        assert e[1..] == EscapeRegExp(q[1..]);
      }
      assert q == [q[0]] + q[1..];
    }
  }

  /** `lit` occurs at `i` in `text`, ignoring case. */
  ghost predicate MatchesAt(text: string, lit: string, i: int) {
    0 <= i && i + |lit| <= |text| && Lower(text[i..i + |lit|]) == Lower(lit)
  }

  /** `lit` occurs nowhere in `text`, ignoring case. */
  ghost predicate Unmatched(text: string, lit: string) {
    forall i :: !MatchesAt(text, lit, i)
  }

  /**
   * `text.split(/(lit)/i)`: scanning from the left, each occurrence (ignoring
   * case) is cut out and kept between the pieces around it, so the result
   * alternates piece, match, piece, ..., piece.
   */
  function Split(text: string, lit: string): (r: seq<string>)
    requires |lit| > 0
    ensures |r| % 2 == 1
    decreases |text|
  {
    if |text| < |lit| then [text]
    else if Lower(text[..|lit|]) == Lower(lit) then ["", text[..|lit|]] + Split(text[|lit|..], lit)
    else
      var rest := Split(text[1..], lit);
      [[text[0]] + rest[0]] + rest[1..]
  }

  /** The pieces joined back together. */
  function Concat(parts: seq<string>): string
    decreases |parts|
  {
    if parts == [] then "" else parts[0] + Concat(parts[1..])
  }

  /** The split loses nothing: its pieces join back to the text. */
  lemma {:induction false} SplitConcat(text: string, lit: string)
    requires |lit| > 0
    ensures Concat(Split(text, lit)) == text
    decreases |text|
  {
    var r := Split(text, lit);
    if |text| < |lit| {
      assert Concat(r) == text + Concat([]);
    } else if Lower(text[..|lit|]) == Lower(lit) {
      var rest := Split(text[|lit|..], lit);
      SplitConcat(text[|lit|..], lit);
      assert r[1..] == [text[..|lit|]] + rest;
      assert r[1..][1..] == rest;
      assert text == "" + text[..|lit|] + text[|lit|..];
    } else {
      var rest := Split(text[1..], lit);
      SplitConcat(text[1..], lit);
      assert r[1..] == rest[1..];
      assert Concat(rest) == rest[0] + Concat(rest[1..]);
      assert text == [text[0]] + text[1..];
    }
  }

  /** Every odd piece is a match: it equals `lit` ignoring case. */
  lemma {:induction false} SplitOddPiecesMatch(text: string, lit: string)
    requires |lit| > 0
    ensures forall k :: 0 <= k < |Split(text, lit)| && k % 2 == 1 ==> Lower(Split(text, lit)[k]) == Lower(lit)
    decreases |text|
  {
    var r := Split(text, lit);
    if |text| < |lit| {
    } else if Lower(text[..|lit|]) == Lower(lit) {
      var rest := Split(text[|lit|..], lit);
      assert r == ["", text[..|lit|]] + rest;
      SplitOddPiecesMatch(text[|lit|..], lit);
      forall k | 0 <= k < |r| && k % 2 == 1 ensures Lower(r[k]) == Lower(lit) {
        if k >= 2 {
          assert r[k] == rest[k - 2];
        }
      }
    } else {
      var rest := Split(text[1..], lit);
      assert r == [[text[0]] + rest[0]] + rest[1..];
      SplitOddPiecesMatch(text[1..], lit);
      forall k | 0 <= k < |r| && k % 2 == 1 ensures Lower(r[k]) == Lower(lit) {
        assert r[k] == rest[k];
      }
    }
  }

  /** The first piece is a prefix of the text. */
  lemma FirstPieceIsPrefix(text: string, lit: string)
    requires |lit| > 0
    ensures var r := Split(text, lit); |r[0]| <= |text| && text[..|r[0]|] == r[0]
  {
    var r := Split(text, lit);
    SplitConcat(text, lit);
    assert Concat(r) == r[0] + Concat(r[1..]);
  }

  /** Every even piece holds no occurrence of `lit`, ignoring case. */
  lemma {:induction false} SplitEvenPiecesUnmatched(text: string, lit: string)
    requires |lit| > 0
    ensures forall k :: 0 <= k < |Split(text, lit)| && k % 2 == 0 ==> Unmatched(Split(text, lit)[k], lit)
    decreases |text|
  {
    var r := Split(text, lit);
    if |text| < |lit| {
      assert forall i :: !MatchesAt(text, lit, i);
    } else if Lower(text[..|lit|]) == Lower(lit) {
      var rest := Split(text[|lit|..], lit);
      assert r == ["", text[..|lit|]] + rest;
      SplitEvenPiecesUnmatched(text[|lit|..], lit);
      forall k | 0 <= k < |r| && k % 2 == 0 ensures Unmatched(r[k], lit) {
        if k >= 2 {
          assert r[k] == rest[k - 2];
        } else {
          assert r[k] == "";
        }
      }
    } else {
      var rest := Split(text[1..], lit);
      assert r == [[text[0]] + rest[0]] + rest[1..];
      SplitEvenPiecesUnmatched(text[1..], lit);
      forall k | 0 <= k < |r| && k % 2 == 0 ensures Unmatched(r[k], lit) {
        if k >= 2 {
          assert r[k] == rest[k];
        } else {
          FirstPieceIsPrefix(text[1..], lit);
          ExtendedPieceUnmatched(text, lit, rest[0]);
        }
      }
    }
  }

  /** Prefixing the text's first character to a piece of the rest adds no occurrence when none starts at 0. */
  lemma ExtendedPieceUnmatched(text: string, lit: string, piece: string)
    requires |lit| > 0 && |text| >= |lit| && Lower(text[..|lit|]) != Lower(lit)
    requires |piece| <= |text| - 1 && text[1..][..|piece|] == piece && Unmatched(piece, lit)
    ensures Unmatched([text[0]] + piece, lit)
  {
    var ext := [text[0]] + piece;
    forall i | 0 <= i && i + |lit| <= |ext| ensures !MatchesAt(ext, lit, i) {
      if i == 0 {
        assert ext[..|lit|] == text[..|lit|];
      } else {
        assert ext[i..i + |lit|] == piece[i - 1..i - 1 + |lit|];
        assert !MatchesAt(piece, lit, i - 1);
      }
    }
  }

  /** The split has a single piece exactly when the text holds no occurrence. */
  lemma {:induction false} SplitSingleIffUnmatched(text: string, lit: string)
    requires |lit| > 0
    ensures |Split(text, lit)| == 1 <==> Unmatched(text, lit)
    decreases |text|
  {
    var r := Split(text, lit);
    SplitConcat(text, lit);
    SplitEvenPiecesUnmatched(text, lit);
    if |r| == 1 {
      assert r[1..] == [];
      assert Concat(r) == r[0] + Concat([]);
      assert r[0] == text;
    } else {
      SplitOddPiecesMatch(text, lit);
      assert Concat(r) == r[0] + (r[1] + Concat(r[2..])) by {
        assert Concat(r[1..]) == r[1] + Concat(r[1..][1..]);
        assert r[1..][1..] == r[2..];
      }
      assert text[|r[0]|..|r[0]| + |lit|] == r[1] by {
        assert |Lower(r[1])| == |lit|;
      }
      assert MatchesAt(text, lit, |r[0]|);
    }
  }

  /** A rendered piece: plain text or a `<strong className="highlighted-text">`. */
  datatype Part = Plain(text: string) | Strong(text: string)

  function Texts(parts: seq<Part>): seq<string>
    ensures |Texts(parts)| == |parts|
    decreases |parts|
  {
    if parts == [] then [] else [parts[0].text] + Texts(parts[1..])
  }

  /** `parts.map(...)`: a piece is highlighted iff it equals the query ignoring case. */
  function Mark(pieces: seq<string>, query: string): (r: seq<Part>)
    ensures |r| == |pieces|
    ensures forall k :: 0 <= k < |r| ==> r[k].text == pieces[k]
    ensures forall k :: 0 <= k < |r| ==> (r[k].Strong? <==> Lower(pieces[k]) == Lower(query))
    decreases |pieces|
  {
    if pieces == [] then []
    else [if Lower(pieces[0]) == Lower(query) then Strong(pieces[0]) else Plain(pieces[0])] + Mark(pieces[1..], query)
  }

  /** `highlightText(text, query)`; returning the text alone is `[Plain(text)]`. */
  function HighlightText(text: string, query: string): (r: seq<Part>)
  {
    if Trim(query) == "" then [Plain(text)]
    else
      match LiteralOf(EscapeRegExp(query))
      case None => [Plain(text)]
      case Some(lit) =>
        if |lit| == 0 then [Plain(text)]
        else
          var parts := Split(text, lit);
          if |parts| <= 1 then [Plain(text)] else Mark(parts, query)
  }

  /** A blank or whitespace-only query returns the text unchanged. */
  lemma BlankQueryKeepsText(text: string, query: string)
    requires Trim(query) == ""
    ensures HighlightText(text, query) == [Plain(text)]
  {
  }

  /** A query that does not occur, ignoring case, returns the text unchanged. */
  lemma UnmatchedQueryKeepsText(text: string, query: string)
    requires Unmatched(text, query)
    ensures HighlightText(text, query) == [Plain(text)]
  {
    EscapedQueryIsLiteral(query);
    if |query| > 0 {
      SplitSingleIffUnmatched(text, query);
    }
  }

  lemma TextsOfMark(pieces: seq<string>, query: string)
    ensures Texts(Mark(pieces, query)) == pieces
  {
    var t := Texts(Mark(pieces, query));
    forall k | 0 <= k < |pieces| ensures t[k] == pieces[k] {
      TextsAt(Mark(pieces, query), k);
    }
  }

  lemma {:induction false} TextsAt(parts: seq<Part>, k: nat)
    requires k < |parts|
    ensures Texts(parts)[k] == parts[k].text
    decreases k
  {
    if k > 0 {
      TextsAt(parts[1..], k - 1);
    }
  }

  lemma NonBlankIsNonEmpty(q: string)
    requires Trim(q) != ""
    ensures |q| > 0
  {
  }

  /** The pieces always join back to the text. */
  lemma HighlightReassembles(text: string, query: string)
    ensures Concat(Texts(HighlightText(text, query))) == text
  {
    var r := HighlightText(text, query);
    EscapedQueryIsLiteral(query);
    if r == [Plain(text)] {
      assert Texts(r) == [text];
      assert Concat([text]) == text + Concat([]);
    } else {
      NonBlankIsNonEmpty(query);
      TextsOfMark(Split(text, query), query);
      SplitConcat(text, query);
    }
  }

  /** When the query occurs, the result is the marked split. */
  lemma HighlightIsMarkedSplit(text: string, query: string)
    requires Trim(query) != "" && !Unmatched(text, query)
    ensures |query| > 0 && |Split(text, query)| >= 3
    ensures HighlightText(text, query) == Mark(Split(text, query), query)
  {
    NonBlankIsNonEmpty(query);
    EscapedQueryIsLiteral(query);
    SplitSingleIffUnmatched(text, query);
    OddAboveOne(|Split(text, query)|);
  }

  lemma OddAboveOne(n: nat)
    requires n % 2 == 1 && n > 1
    ensures n >= 3
  {
  }

  /** Marking pieces that alternate non-occurrence and occurrence highlights exactly the odd ones. */
  lemma MarkAlternates(parts: seq<string>, query: string)
    requires |query| > 0
    requires forall k :: 0 <= k < |parts| && k % 2 == 1 ==> Lower(parts[k]) == Lower(query)
    requires forall k :: 0 <= k < |parts| && k % 2 == 0 ==> Unmatched(parts[k], query)
    ensures forall k :: 0 <= k < |parts| ==> (Mark(parts, query)[k].Strong? <==> k % 2 == 1)
  {
    var r := Mark(parts, query);
    forall k | 0 <= k < |parts| ensures r[k].Strong? <==> k % 2 == 1 {
      if k % 2 == 0 && Lower(parts[k]) == Lower(query) {
        assert parts[k][0..|query|] == parts[k];
        assert MatchesAt(parts[k], query, 0);
      }
    }
  }

  /**
   * When the query occurs, ignoring case, the pieces alternate plain and
   * highlighted, starting and ending plain, and a piece is highlighted exactly
   * when it is an occurrence of the query.
   */
  lemma HighlightMarksOccurrences(text: string, query: string)
    requires Trim(query) != "" && !Unmatched(text, query)
    ensures |HighlightText(text, query)| >= 3
    ensures forall k :: 0 <= k < |HighlightText(text, query)| ==>
      (HighlightText(text, query)[k].Strong? <==> k % 2 == 1)
    ensures forall k :: 0 <= k < |HighlightText(text, query)| && HighlightText(text, query)[k].Strong? ==>
      Lower(HighlightText(text, query)[k].text) == Lower(query)
  {
    HighlightIsMarkedSplit(text, query);
    var parts := Split(text, query);
    var r := Mark(parts, query);
    assert HighlightText(text, query) == r;
    SplitOddPiecesMatch(text, query);
    SplitEvenPiecesUnmatched(text, query);
    MarkAlternates(parts, query);
    assert forall k :: 0 <= k < |r| && r[k].Strong? ==> Lower(r[k].text) == Lower(query);
  }
}
