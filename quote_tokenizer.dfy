/**
 * The quoted-token scanner of the poll command (index.js:145), a global match of
 *
 *   "[^"\\]*(?:\\[\S\s][^"\\]*)*"  |  '[^'\\]*(?:\\[\S\s][^'\\]*)*  |  “[^“\\]*(?:\\[\S\s][^”\\]*)*”
 *
 * written out as a deterministic scanner. A backslash escapes the character after it.
 * The straight-double-quote alternative ends at the first unescaped `"`. The single-quote
 * alternative has no closing quote in the pattern: it is the greedy run up to (not
 * including) the next unescaped `'`. The curly alternative excludes `“` before the
 * first escape but `”` after it; the backtracking matcher therefore ends it at the first
 * unescaped `”` after the first escape when there is one, and otherwise at the last `”`
 * before the first `“` or backslash.
 */
module QuoteTokenizer {
  import opened Wrappers

  const Straight: char := '"'
  const Single: char := '\''
  const CurlyOpen: char := '\U{201C}'
  const CurlyClose: char := '\U{201D}'
  const Backslash: char := '\\'

  /** A character at which one of the three alternatives can start. */
  predicate IsOpening(c: char) {
    c == Straight || c == Single || c == CurlyOpen
  }

  /**
   * From position i, the first occurrence of q that no backslash escapes; None when the
   * text ends first (including on a lone trailing backslash).
   */
  function CloseAt(s: string, i: nat, q: char): (e: Option<nat>)
    requires q != Backslash
    ensures e.Some? ==> i <= e.value < |s| && s[e.value] == q
    decreases |s| - i
  {
    if i >= |s| then None
    else if s[i] == q then Some(i)
    else if s[i] == Backslash then (if i + 1 < |s| then CloseAt(s, i + 2, q) else None)
    else CloseAt(s, i + 1, q)
  }

  /**
   * Scanning s[i..e] from i, a backslash and the character after it form one escape,
   * every other character stands alone, no unescaped q is met, and the scan lands on e.
   */
  predicate NoCloseIn(s: string, i: nat, e: nat, q: char)
    requires e <= |s|
    decreases e - i
  {
    i == e
    || (i < e && s[i] != q
        && if s[i] == Backslash then i + 2 <= e && NoCloseIn(s, i + 2, e, q) else NoCloseIn(s, i + 1, e, q))
  }

  /**
   * CloseAt finds the first unescaped q from i on: the scan up to it meets no other. When
   * it finds none, the scan reaches the end of the text, or stops at a lone trailing
   * backslash, without meeting an unescaped q.
   */
  lemma {:induction false} CloseAtFirst(s: string, i: nat, q: char)
    requires q != Backslash && i <= |s|
    ensures CloseAt(s, i, q).Some? ==> NoCloseIn(s, i, CloseAt(s, i, q).value, q)
    ensures CloseAt(s, i, q).None? ==>
      NoCloseIn(s, i, |s|, q) || (i < |s| && s[|s| - 1] == Backslash && NoCloseIn(s, i, |s| - 1, q))
    decreases |s| - i
  {
    if i < |s| && s[i] != q {
      if s[i] == Backslash {
        if i + 1 < |s| {
          CloseAtFirst(s, i + 2, q);
        }
      } else {
        CloseAtFirst(s, i + 1, q);
      }
    }
  }

  /** Where the greedy body of the single-quote alternative, started at i, stops. */
  function SingleEnd(s: string, i: nat): (e: nat)
    requires i <= |s|
    ensures i <= e <= |s|
    ensures e < |s| ==> s[e] == Single || (s[e] == Backslash && e == |s| - 1)
    decreases |s| - i
  {
    if i == |s| || s[i] == Single then i
    else if s[i] == Backslash then (if i + 1 < |s| then SingleEnd(s, i + 2) else i)
    else SingleEnd(s, i + 1)
  }

  /**
   * The single-quote body meets no unescaped `'` before it stops, so the `'` it stops at
   * (see SingleEnd's contract) is the first unescaped one.
   */
  lemma {:induction false} SingleEndFirst(s: string, i: nat)
    requires i <= |s|
    ensures NoCloseIn(s, i, SingleEnd(s, i), Single)
    decreases |s| - i
  {
    if i < |s| && s[i] != Single {
      if s[i] == Backslash {
        if i + 1 < |s| {
          SingleEndFirst(s, i + 2);
        }
      } else {
        SingleEndFirst(s, i + 1);
      }
    }
  }

  /** The end of the run of characters other than `“` and backslash that starts at i. */
  function OpenRunEnd(s: string, i: nat): (r: nat)
    requires i <= |s|
    ensures i <= r <= |s|
    ensures r < |s| ==> s[r] == CurlyOpen || s[r] == Backslash
    decreases |s| - i
  {
    if i == |s| || s[i] == CurlyOpen || s[i] == Backslash then i else OpenRunEnd(s, i + 1)
  }

  /** The run that OpenRunEnd ends holds neither `“` nor a backslash. */
  lemma {:induction false} OpenRunEndPlain(s: string, i: nat)
    requires i <= |s|
    ensures forall k :: i <= k < OpenRunEnd(s, i) ==> s[k] != CurlyOpen && s[k] != Backslash
    decreases |s| - i
  {
    if i < |s| && s[i] != CurlyOpen && s[i] != Backslash {
      OpenRunEndPlain(s, i + 1);
    }
  }

  /** The last `”` in s[i..r], if any. */
  function LastClose(s: string, i: nat, r: nat): (e: Option<nat>)
    requires i <= r <= |s|
    ensures e.Some? ==> i <= e.value < r && s[e.value] == CurlyClose
    decreases r - i
  {
    if r == i then None
    else if s[r - 1] == CurlyClose then Some(r - 1)
    else LastClose(s, i, r - 1)
  }

  /** LastClose finds the last `”` of the stretch, and no `”` when it finds none. */
  lemma {:induction false} LastCloseIsLast(s: string, i: nat, r: nat)
    requires i <= r <= |s|
    ensures LastClose(s, i, r).Some? ==> forall k :: LastClose(s, i, r).value < k < r ==> s[k] != CurlyClose
    ensures LastClose(s, i, r).None? ==> forall k :: i <= k < r ==> s[k] != CurlyClose
    decreases r - i
  {
    if r > i && s[r - 1] != CurlyClose {
      LastCloseIsLast(s, i, r - 1);
    }
  }

  /** The position of the `”` that closes a curly token whose body starts at i. */
  function CurlyClosing(s: string, i: nat): (e: Option<nat>)
    requires i <= |s|
    ensures e.Some? ==> i <= e.value < |s| && s[e.value] == CurlyClose
  {
    var r := OpenRunEnd(s, i);
    var greedy := if r < |s| && s[r] == Backslash then CloseAt(s, r, CurlyClose) else None;
    if greedy.Some? then greedy else LastClose(s, i, r)
  }

  /** The exclusive end of the match that starts at p, if one starts there. */
  function MatchEnd(s: string, p: nat): (e: Option<nat>)
    requires p < |s|
    ensures e.Some? ==> p < e.value <= |s|
  {
    if s[p] == Straight then
      match CloseAt(s, p + 1, Straight)
      case Some(c) => Some(c + 1)
      case None => None
    else if s[p] == Single then Some(SingleEnd(s, p + 1))
    else if s[p] == CurlyOpen then
      match CurlyClosing(s, p + 1)
      case Some(c) => Some(c + 1)
      case None => None
    else None
  }

  /**
   * A match starts exactly at an opening quote whose alternative can close, and a
   * straight or curly match ends with its closing quote.
   */
  lemma MatchEndShape(s: string, p: nat)
    requires p < |s|
    ensures var e := MatchEnd(s, p);
      && (e.Some? <==> (s[p] == Straight && CloseAt(s, p + 1, Straight).Some?)
                       || s[p] == Single
                       || (s[p] == CurlyOpen && CurlyClosing(s, p + 1).Some?))
      && (e.Some? && s[p] == Straight ==> p + 2 <= e.value && s[e.value - 1] == Straight)
      && (e.Some? && s[p] == CurlyOpen ==> p + 2 <= e.value && s[e.value - 1] == CurlyClose)
  {
  }

  /**
   * The matches from position p on, in order: a match is tried at every position and,
   * when found, scanning resumes right after it.
   */
  function TokensFrom(s: string, p: nat): seq<string>
    requires p <= |s|
    decreases |s| - p
  {
    if p == |s| then []
    else
      match MatchEnd(s, p)
      case Some(e) => [s[p..e]] + TokensFrom(s, e)
      case None => TokensFrom(s, p + 1)
  }

  /** A token that begins with a straight or curly opening quote ends with its closing quote. */
  predicate WellQuoted(t: string) {
    && |t| >= 1 && IsOpening(t[0])
    && (t[0] == Straight ==> |t| >= 2 && t[|t| - 1] == Straight)
    && (t[0] == CurlyOpen ==> |t| >= 2 && t[|t| - 1] == CurlyClose)
  }

  /**
   * Every token starts with an opening quote, and a straight or curly one ends with the
   * matching closing quote.
   */
  lemma {:induction false} TokensWellQuoted(s: string, p: nat)
    requires p <= |s|
    ensures forall k :: 0 <= k < |TokensFrom(s, p)| ==> WellQuoted(TokensFrom(s, p)[k])
    decreases |s| - p
  {
    if p < |s| {
      MatchEndShape(s, p);
      match MatchEnd(s, p)
      case Some(e) =>
        TokensWellQuoted(s, e);
        assert s[p..e][0] == s[p];
        assert s[p..e][e - p - 1] == s[e - 1];
      case None =>
        TokensWellQuoted(s, p + 1);
    }
  }

  /** `body.match(pattern) || []`. */
  function Tokens(s: string): seq<string> {
    TokensFrom(s, 0)
  }

  /** A word written between straight double quotes. */
  function Quote(w: string): string {
    [Straight] + w + [Straight]
  }

  /** Each word in straight double quotes. */
  function QuoteAll(ws: seq<string>): (qs: seq<string>)
    ensures |qs| == |ws| && forall k :: 0 <= k < |ws| ==> qs[k] == Quote(ws[k])
  {
    if |ws| == 0 then [] else [Quote(ws[0])] + QuoteAll(ws[1..])
  }

  /** Words quoted with straight double quotes and separated by single spaces. */
  function QuotedList(ws: seq<string>): string {
    if |ws| == 0 then ""
    else if |ws| == 1 then Quote(ws[0])
    else Quote(ws[0]) + " " + QuotedList(ws[1..])
  }

  /** A word that needs no escape inside straight double quotes. */
  predicate PlainWord(w: string) {
    Straight !in w && Backslash !in w
  }

  /** No match starts inside a stretch that holds no opening quote. */
  lemma {:induction false} SkipPlain(s: string, p: nat, q: nat)
    requires p <= q <= |s|
    requires forall k :: p <= k < q ==> !IsOpening(s[k])
    ensures TokensFrom(s, p) == TokensFrom(s, q)
    decreases q - p
  {
    if p < q {
      SkipPlain(s, p + 1, q);
    }
  }

  /** Over a stretch without quote or backslash the closing quote is the one after it. */
  lemma {:induction false} CloseAtPlain(s: string, i: nat, j: nat, q: char)
    requires q != Backslash
    requires i <= j < |s| && s[j] == q
    requires forall k :: i <= k < j ==> s[k] != q && s[k] != Backslash
    ensures CloseAt(s, i, q) == Some(j)
    decreases j - i
  {
    if i < j {
      CloseAtPlain(s, i + 1, j, q);
    }
  }

  /** A plain word in straight double quotes is one match, ending at its closing quote. */
  lemma QuotedWordAt(s: string, p: nat, w: string)
    requires PlainWord(w)
    requires p + |w| + 2 <= |s| && s[p..p + |w| + 2] == Quote(w)
    ensures TokensFrom(s, p) == [Quote(w)] + TokensFrom(s, p + |w| + 2)
  {
    var e := p + |w| + 2;
    forall k | p + 1 <= k < e - 1
      ensures s[k] != Straight && s[k] != Backslash
    {
      assert s[k] == s[p..e][k - p] == w[k - p - 1];
    }
    assert s[p] == s[p..e][0] == Straight;
    assert s[e - 1] == s[p..e][|w| + 1] == Straight;
    CloseAtPlain(s, p + 1, e - 1, Straight);
    assert MatchEnd(s, p) == Some(e);
  }

  /** Cutting a suffix of s that is a concatenation. */
  lemma SuffixCut(s: string, p: nat, a: string, b: string)
    requires p <= |s| && s[p..] == a + b
    ensures p + |a| <= |s| && s[p..p + |a|] == a && s[p + |a|..] == b
  {
    assert s[p..p + |a|] == s[p..][..|a|];
    assert s[p + |a|..] == s[p..][|a|..];
  }

  /** Where the first of several quoted words ends, a space follows and then the others. */
  lemma QuotedListCut(s: string, p: nat, ws: seq<string>)
    requires |ws| > 1
    requires p <= |s| && s[p..] == QuotedList(ws)
    ensures p + |ws[0]| + 3 <= |s|
    ensures s[p..p + |ws[0]| + 2] == Quote(ws[0]) && s[p + |ws[0]| + 2] == ' '
    ensures s[p + |ws[0]| + 3..] == QuotedList(ws[1..])
  {
    assert QuotedList(ws) == Quote(ws[0]) + " " + QuotedList(ws[1..]);
    SuffixCutSpace(s, p, Quote(ws[0]), QuotedList(ws[1..]));
  }

  /** The plain words ws, quoted and separated by single spaces, fill s from p to its end. */
  predicate QuotedAt(s: string, p: nat, ws: seq<string>)
    decreases |ws|, 1
  {
    if |ws| == 0 then p == |s| else WordThenRest(s, p, ws)
  }

  /** The first of the words ws, quoted, is at p, and the others follow a space later. */
  predicate WordThenRest(s: string, p: nat, ws: seq<string>)
    decreases |ws|, 0
  {
    && |ws| > 0
    && var e := p + |ws[0]| + 2;
      && PlainWord(ws[0])
      && e <= |s| && s[p..e] == Quote(ws[0])
      && (if |ws| == 1 then e == |s| else e < |s| && s[e] == ' ' && QuotedAt(s, e + 1, ws[1..]))
  }

  /** A suffix that spells the quoted list is laid out word by word. */
  lemma {:induction false} QuotedListAt(s: string, p: nat, ws: seq<string>)
    requires forall k :: 0 <= k < |ws| ==> PlainWord(ws[k])
    requires p <= |s| && s[p..] == QuotedList(ws)
    ensures QuotedAt(s, p, ws)
    decreases |ws|
  {
    if |ws| == 1 {
      SuffixCut(s, p, Quote(ws[0]), "");
    } else if |ws| > 1 {
      QuotedListCut(s, p, ws);
      var more := ws[1..];
      assert forall k :: 0 <= k < |more| ==> PlainWord(more[k]) by {
        forall k | 0 <= k < |more|
          ensures PlainWord(more[k])
        {
          assert more[k] == ws[k + 1];
        }
      }
      QuotedListAt(s, p + |ws[0]| + 3, more);
    }
  }

  /** Cutting a suffix of s that is two texts with a space between them. */
  lemma SuffixCutSpace(s: string, p: nat, a: string, b: string)
    requires p <= |s| && s[p..] == a + " " + b
    ensures p + |a| < |s| && s[p..p + |a|] == a && s[p + |a|] == ' ' && s[p + |a| + 1..] == b
  {
    SuffixCut(s, p, a, " " + b);
    SuffixCut(s, p + |a|, " ", b);
    assert s[p + |a|] == s[p + |a|..][0];
  }

  /** The first quoted word of a laid-out list is one match; the rest start a space later. */
  lemma QuotedStep(s: string, p: nat, ws: seq<string>)
    requires |ws| > 0 && QuotedAt(s, p, ws)
    ensures var e := p + |ws[0]| + 2;
      && e <= |s|
      && TokensFrom(s, p) == [Quote(ws[0])] + TokensFrom(s, e)
      && (|ws| == 1 ==> e == |s|)
      && (|ws| > 1 ==> e < |s| && TokensFrom(s, e) == TokensFrom(s, e + 1) && QuotedAt(s, e + 1, ws[1..]))
  {
    assert WordThenRest(s, p, ws);
    var e := p + |ws[0]| + 2;
    if |ws| > 1 {
      assert !IsOpening(s[e]);
      SkipPlain(s, e, e + 1);
    }
    QuotedWordAt(s, p, ws[0]);
  }

  /** Plain words in straight double quotes are matched back one by one. */
  lemma {:induction false} TokensOfQuotedList(s: string, p: nat, ws: seq<string>)
    requires p <= |s| && QuotedAt(s, p, ws)
    ensures TokensFrom(s, p) == QuoteAll(ws)
    decreases |ws|
  {
    if |ws| > 0 {
      QuotedStep(s, p, ws);
      var e := p + |ws[0]| + 2;
      if |ws| > 1 {
        TokensOfQuotedList(s, e + 1, ws[1..]);
      }
      assert QuoteAll(ws) == [Quote(ws[0])] + QuoteAll(ws[1..]);
    }
  }

  /**
   * Text that holds no opening quote, followed by plain words in straight double
   * quotes, tokenizes to exactly those quoted words, in order.
   */
  lemma TokensAfterPlainText(pre: string, ws: seq<string>)
    requires forall k :: 0 <= k < |pre| ==> !IsOpening(pre[k])
    requires forall k :: 0 <= k < |ws| ==> PlainWord(ws[k])
    ensures Tokens(pre + QuotedList(ws)) == QuoteAll(ws)
  {
    var s := pre + QuotedList(ws);
    SkipPlain(s, 0, |pre|);
    assert s[|pre|..] == QuotedList(ws);
    QuotedListAt(s, |pre|, ws);
    TokensOfQuotedList(s, |pre|, ws);
  }
}
