/**
 * The poll command handler (index.js:29-258): the keyword scan before the first
 * straight double quote, the split of the quoted tokens into question and options,
 * and the construction of the poll message.
 */
module PollCommand {
  import opened Wrappers
  import opened JsText
  import opened QuoteTokenizer
  import opened Blocks

  /** The settings the keywords select. */
  datatype Settings = Settings(anonymous: bool, limited: bool, limit: Option<int>)

  /** What the handler posts back: nothing, the help message, or a poll. */
  datatype Reply = NoReply | HelpReply | PollReply(blocks: seq<Block>)

  /** The space-separated words of the trimmed text before the first straight double quote. */
  function KeywordArgs(body: string): seq<string> {
    Split(Trim(Substr(body, IndexOf(body, Straight))), ' ')
  }

  /** The first position of a word in a word list. */
  function FirstIndexOf(args: seq<string>, w: string): (i: nat)
    requires w in args
    ensures i < |args| && args[i] == w && w !in args[..i]
  {
    if args[0] == w then 0
    else
      assert args[1..][..FirstIndexOf(args[1..], w)] == args[1..FirstIndexOf(args[1..], w) + 1];
      FirstIndexOf(args[1..], w) + 1
  }

  /**
   * The settings that the keyword loop arrives at, stated without the loop: a keyword is
   * on when the word occurs at all, and the limit is the number that follows the FIRST
   * `limit`, or 1 when that word is missing or is not a number.
   */
  function KeywordSettings(args: seq<string>): Settings {
    var limited := "limit" in args;
    var limit :=
      if !limited then None
      else
        var i := FirstIndexOf(args, "limit");
        if i + 1 < |args| then LimitWord(args[i + 1]) else Some(1);
    Settings("anonymous" in args, limited, limit)
  }

  /** A word that starts with a lower-case letter is not a number. */
  lemma WordIsNotNumber(w: string)
    requires |w| > 0 && 'a' <= w[0] <= 'z'
    ensures ParseInt(w) == None
  {
    assert !IsWhitespace(w[0]);
    assert TrimStart(w) == w;
    assert !IsDigit(w[0], 10);
  }

  /** Neither keyword reads as a number. */
  lemma KeywordsAreNotNumbers()
    ensures ParseInt("anonymous") == None && ParseInt("limit") == None
  {
    WordIsNotNumber("anonymous");
    WordIsNotNumber("limit");
  }

  /** The limit that the word after `limit` sets: its number, or 1 when it is not one. */
  function LimitWord(w: string): Option<int> {
    if ParseInt(w).Some? then ParseInt(w) else Some(1)
  }

  /**
   * The keyword loop (index.js:121-143). A word right after the first `limit` is read as
   * the limit; when it is not a number the limit becomes 1 and the word is still looked
   * at as a keyword. Each keyword takes effect once; a missing limit defaults to 1.
   */
  method ScanKeywords(args: seq<string>) returns (settings: Settings)
    ensures settings == KeywordSettings(args)
    ensures settings.limited ==> settings.limit.Some?
  {
    var isAnonymous, isLimited, limit, fetchLimit := false, false, None, false;
    ghost var first := 0;
    var k := 0;
    while k < |args|
      invariant 0 <= k <= |args|
      invariant isAnonymous == ("anonymous" in args[..k])
      invariant isLimited == ("limit" in args[..k])
      invariant isLimited ==> first < k && args[first] == "limit" && "limit" !in args[..first]
      invariant fetchLimit == (isLimited && first == k - 1)
      invariant !isLimited || fetchLimit ==> limit == None
      invariant isLimited && !fetchLimit ==>
        first + 1 < k && limit == LimitWord(args[first + 1])
    {
      var arg := args[k];
      assert args[..k + 1] == args[..k] + [arg];
      var examine := true;
      if fetchLimit {
        limit := ParseInt(arg);
        if limit.None? {
          limit := Some(1);
          fetchLimit := false;
        } else {
          KeywordsAreNotNumbers();
          assert arg != "anonymous" && arg != "limit";
          fetchLimit := false;
          examine := false;
        }
      }
      if examine {
        if !isAnonymous && arg == "anonymous" {
          isAnonymous := true;
        } else if !isLimited && arg == "limit" {
          isLimited := true;
          fetchLimit := true;
          first := k;
        }
      }
      k := k + 1;
    }
    assert args[..k] == args;
    if isLimited && limit == None {
      limit := Some(1);
    }
    settings := Settings(isAnonymous, isLimited, limit);
  }

  /** `substring(1, length - 1)`: drops the first and last character; a one-character token stays. */
  function Strip(t: string): string {
    if |t| >= 2 then t[1..|t| - 1] else t
  }

  /** The tokens after the question, each stripped. */
  function StripAll(ts: seq<string>): (r: seq<string>)
    ensures |r| == |ts| && forall k :: 0 <= k < |ts| ==> r[k] == Strip(ts[k])
  {
    if |ts| == 0 then [] else [Strip(ts[0])] + StripAll(ts[1..])
  }

  /**
   * The token loop (index.js:145-152): the first token, stripped of its first and last
   * character, is the question; every later one, stripped the same way, is an option,
   * in order.
   */
  method SplitQuestion(tokens: seq<string>) returns (question: Option<string>, options: seq<string>)
    ensures question == if |tokens| == 0 then None else Some(Strip(tokens[0]))
    ensures options == if |tokens| == 0 then [] else StripAll(tokens[1..])
  {
    question := None;
    options := [];
    for k := 0 to |tokens|
      invariant question == if k == 0 then None else Some(Strip(tokens[0]))
      invariant options == if k == 0 then [] else StripAll(tokens[1..k])
    {
      var opt := Strip(tokens[k]);
      if question == None {
        question := Some(opt);
      } else {
        options := options + [opt];
      }
    }
  }

  /** The limit badge text; a limit of 1 or less reads `vote`, a larger one `votes`. */
  function LimitBadge(limit: Option<int>): string {
    var n := match limit case Some(v) => IntToString(v) case None => "null";
    ":warning: Limited to " + n + " vote" + (if limit.Some? && limit.value > 1 then "s" else "")
  }

  /** The badge line's elements. */
  function BadgeElements(s: Settings): seq<string> {
    (if s.anonymous then [AnonymousBadge] else []) + (if s.limited then [LimitBadge(s.limit)] else [])
  }

  /** The value of option i's button: the settings, no voters yet, and the option's index. */
  function InitialValue(s: Settings, i: int): ButtonValue {
    ButtonValue(s.anonymous, s.limited, s.limit, [], i)
  }

  /** Option i's two blocks: its text with a vote button, and its caption. */
  function OptionBlocks(option: string, s: Settings, i: int): seq<Block> {
    [Section(option, Some(Button(VoteLabel, InitialValue(s, i)))), Context([NoVotes])]
  }

  /** The blocks of options[from..], numbered from `from`. */
  function OptionsBlocks(options: seq<string>, s: Settings, from: nat): seq<Block>
    requires from <= |options|
    decreases |options| - from
  {
    if from == |options| then []
    else OptionBlocks(options[from], s, from) + OptionsBlocks(options, s, from + 1)
  }

  /** The blocks before the options: the question, the badge line when there is one, a divider. */
  function HeadBlocks(question: string, s: Settings): seq<Block> {
    [Section(question, None)]
    + (if s.anonymous || s.limited then [Context(BadgeElements(s))] else [])
    + [Divider]
  }

  /** The blocks after the options: a divider and the help footer. */
  function TailBlocks(): seq<Block> {
    [Divider, Context([HelpLink])]
  }

  /** The whole poll message. */
  function PollBlocks(question: string, options: seq<string>, s: Settings): seq<Block> {
    HeadBlocks(question, s) + OptionsBlocks(options, s, 0) + TailBlocks()
  }

  /** The option blocks hold two blocks per option. */
  lemma {:induction false} OptionsBlocksLength(options: seq<string>, s: Settings, from: nat)
    requires from <= |options|
    ensures |OptionsBlocks(options, s, from)| == 2 * (|options| - from)
    decreases |options| - from
  {
    if from < |options| {
      OptionsBlocksLength(options, s, from + 1);
    }
  }

  /** The option blocks, indexed: option j's button at 2j, its caption right after. */
  lemma {:induction false} OptionsBlocksIndex(options: seq<string>, s: Settings, from: nat, j: int)
    requires from <= j < |options|
    ensures var m := OptionsBlocks(options, s, from);
      && 2 * (j - from) + 1 < |m|
      && m[2 * (j - from)] == Section(options[j], Some(Button(VoteLabel, InitialValue(s, j))))
      && m[2 * (j - from) + 1] == Context([NoVotes])
    decreases |options| - from
  {
    OptionsBlocksLength(options, s, from);
    if j > from {
      OptionsBlocksIndex(options, s, from + 1, j);
      var tail := OptionsBlocks(options, s, from + 1);
      var m := OptionsBlocks(options, s, from);
      assert m == OptionBlocks(options[from], s, from) + tail;
      assert m[2 * (j - from)] == tail[2 * (j - (from + 1))];
      assert m[2 * (j - from) + 1] == tail[2 * (j - (from + 1)) + 1];
    }
  }

  /** The head and the tail of a poll message, around its option blocks. */
  lemma PollBlocksFrame(question: string, options: seq<string>, s: Settings)
    ensures var b := PollBlocks(question, options, s);
      var off := BadgeOffset(s.anonymous, s.limited);
      && |b| == 2 * |options| + 4 + off
      && b[0] == Section(question, None)
      && (off == 1 ==> b[1] == Context(BadgeElements(s)))
      && b[1 + off] == Divider
      && b[|b| - 2] == Divider
      && b[|b| - 1] == Context([HelpLink])
  {
    OptionsBlocksLength(options, s, 0);
    var head := HeadBlocks(question, s);
    var mid := OptionsBlocks(options, s, 0);
    var b := head + mid + TailBlocks();
    assert b[0] == head[0];
    assert b[1] == head[1];
    assert b[1 + BadgeOffset(s.anonymous, s.limited)] == head[|head| - 1];
    assert b[|b| - 2] == Divider && b[|b| - 1] == Context([HelpLink]);
  }

  /** Option i's button and caption in a poll message. */
  lemma PollBlocksOption(question: string, options: seq<string>, s: Settings, i: int)
    requires 0 <= i < |options|
    ensures var b := PollBlocks(question, options, s);
      var off := BadgeOffset(s.anonymous, s.limited);
      && 2 + 2 * i + off + 1 < |b|
      && b[2 + 2 * i + off] == Section(options[i], Some(Button(VoteLabel, InitialValue(s, i))))
      && b[2 + 2 * i + off + 1] == Context([NoVotes])
  {
    OptionsBlocksLength(options, s, 0);
    OptionsBlocksIndex(options, s, 0, i);
    var head := HeadBlocks(question, s);
    var mid := OptionsBlocks(options, s, 0);
    var at := 2 + 2 * i + BadgeOffset(s.anonymous, s.limited);
    assert at - |head| == 2 * i;
    assert (head + mid)[at] == mid[2 * i];
    assert (head + mid)[at + 1] == mid[2 * i + 1];
  }

  /**
   * The layout of a poll message: `2 * |options| + 4` blocks plus one for the badge
   * line; option i's button, carrying id i and no voters, at `2 + 2 * i` plus the badge
   * offset, and its `No votes` caption right after it.
   */
  lemma PollBlocksLayout(question: string, options: seq<string>, s: Settings)
    ensures var b := PollBlocks(question, options, s);
      var off := BadgeOffset(s.anonymous, s.limited);
      && |b| == 2 * |options| + 4 + off
      && b[0] == Section(question, None)
      && (off == 1 ==> b[1] == Context(BadgeElements(s)))
      && b[1 + off] == Divider
      && (forall i :: 0 <= i < |options| ==>
            b[2 + 2 * i + off] == Section(options[i], Some(Button(VoteLabel, InitialValue(s, i))))
            && b[2 + 2 * i + off + 1] == Context([NoVotes]))
      && b[|b| - 2] == Divider
      && b[|b| - 1] == Context([HelpLink])
  {
    PollBlocksFrame(question, options, s);
    forall i | 0 <= i < |options|
      ensures var b := PollBlocks(question, options, s);
        var off := BadgeOffset(s.anonymous, s.limited);
        && b[2 + 2 * i + off] == Section(options[i], Some(Button(VoteLabel, InitialValue(s, i))))
        && b[2 + 2 * i + off + 1] == Context([NoVotes])
    {
      PollBlocksOption(question, options, s, i);
    }
  }

  /**
   * The poll construction (index.js:154-243): the head blocks, then one button section and
   * one caption per option, in order, then the tail.
   */
  method BuildBlocks(question: string, options: seq<string>, s: Settings) returns (blocks: seq<Block>)
    ensures blocks == PollBlocks(question, options, s)
  {
    blocks := [Section(question, None)];
    if s.anonymous || s.limited {
      var elements := [];
      if s.anonymous {
        elements := elements + [AnonymousBadge];
      }
      if s.limited {
        elements := elements + [LimitBadge(s.limit)];
      }
      assert elements == BadgeElements(s);
      blocks := blocks + [Context(elements)];
    }
    blocks := blocks + [Divider];
    ghost var head := blocks;
    assert head == HeadBlocks(question, s);
    for i := 0 to |options|
      invariant blocks + OptionsBlocks(options, s, i) == head + OptionsBlocks(options, s, 0)
    {
      blocks := blocks + [Section(options[i], Some(Button(VoteLabel, InitialValue(s, i))))];
      blocks := blocks + [Context([NoVotes])];
    }
    blocks := blocks + [Divider];
    blocks := blocks + [Context([HelpLink])];
  }

  /** Only the text before the first straight double quote is looked at for keywords. */
  lemma KeywordsOnlyBeforeQuote(body: string, rest: string)
    requires Straight in body
    ensures KeywordArgs(body + rest) == KeywordArgs(body)
  {
    var i := IndexOf(body, Straight);
    var t := body + rest;
    assert t[..i] == body[..i] && t[i] == Straight;
    assert IndexOf(t, Straight) == i;
  }

  /** Without a straight double quote no keyword is read: `indexOf` is -1 and `substr` empty. */
  lemma NoQuoteNoKeywords(body: string)
    requires Straight !in body
    ensures KeywordSettings(KeywordArgs(body)) == Settings(false, false, None)
  {
    assert Substr(body, IndexOf(body, Straight)) == "";
    assert Split("", ' ') == [""];
  }

  /** Once the word after the first `limit` is there, later words do not change the limit. */
  lemma LimitFixedByFirstKeyword(args: seq<string>, more: seq<string>)
    requires "limit" in args && FirstIndexOf(args, "limit") + 1 < |args|
    ensures KeywordSettings(args + more).limit == KeywordSettings(args).limit
  {
    var i := FirstIndexOf(args, "limit");
    var all := args + more;
    assert all[..i] == args[..i];
    LimitAfter(all, i);
  }

  /** The keyword words that select the given settings. */
  function KeywordWords(anonymous: bool, limit: Option<int>): seq<string> {
    (if anonymous then ["anonymous"] else [])
    + (if limit.Some? then ["limit", IntToString(limit.value)] else [])
  }

  /** A command text: the keyword words, then the question and the options, quoted. */
  function CommandText(anonymous: bool, limit: Option<int>, question: string, options: seq<string>): string {
    KeywordText(anonymous, limit) + QuotedList([question] + options)
  }

  /** A character that may appear in the keyword words or between them. */
  predicate KeywordChar(c: char) {
    c == ' ' || c == '-' || '0' <= c <= '9' || 'a' <= c <= 'z'
  }

  /** The anonymous keyword is among the keyword words iff it was asked for. */
  lemma KeywordWordsAnonymous(anonymous: bool, limit: Option<int>)
    ensures "anonymous" in KeywordWords(anonymous, limit) <==> anonymous
  {
    var words := KeywordWords(anonymous, limit);
    if anonymous {
      assert words[0] == "anonymous";
    } else if limit.Some? {
      var n := IntToString(limit.value);
      assert n[0] == '-' || '0' <= n[0] <= '9';
      assert words == ["limit", n];
      assert "limit" != "anonymous" && n != "anonymous";
      assert forall j :: 0 <= j < |words| ==> words[j] != "anonymous";
    }
  }

  /** The word after the first `limit` sets the limit. */
  lemma LimitAfter(args: seq<string>, i: nat)
    requires i + 1 < |args| && args[i] == "limit" && "limit" !in args[..i]
    ensures KeywordSettings(args).limit == LimitWord(args[i + 1])
  {
  }

  /** The limit keyword, when written, reads back as the limit it was written for. */
  lemma KeywordWordsLimit(anonymous: bool, limit: Option<int>)
    ensures KeywordSettings(KeywordWords(anonymous, limit)).limit == limit
  {
    var words := KeywordWords(anonymous, limit);
    if limit.Some? {
      var n := IntToString(limit.value);
      ParseIntOfIntToString(limit.value);
      assert LimitWord(n) == limit;
      var i := if anonymous then 1 else 0;
      if anonymous {
        assert words == ["anonymous", "limit", n];
        assert words[..1] == ["anonymous"];
      } else {
        assert words == ["limit", n];
        assert words[..0] == [];
      }
      LimitAfter(words, i);
    } else {
      assert "limit" !in words;
    }
  }

  /** The keyword words read back as the settings they were written for. */
  lemma KeywordWordsSettings(anonymous: bool, limit: Option<int>)
    ensures KeywordSettings(KeywordWords(anonymous, limit)) == Settings(anonymous, limit.Some?, limit)
  {
    KeywordWordsAnonymous(anonymous, limit);
    KeywordWordsLimit(anonymous, limit);
    var words := KeywordWords(anonymous, limit);
    if limit.Some? {
      assert words[|words| - 2] == "limit";
    } else {
      assert "limit" !in words;
    }
  }

  /** The keyword words consist of lower-case letters, digits and `-`, and each one is non-empty. */
  lemma KeywordWordsChars(anonymous: bool, limit: Option<int>)
    ensures var words := KeywordWords(anonymous, limit);
      forall i, k :: 0 <= i < |words| && 0 <= k < |words[i]| ==>
        KeywordChar(words[i][k]) && words[i][k] != ' '
    ensures var words := KeywordWords(anonymous, limit);
      forall i :: 0 <= i < |words| ==> |words[i]| > 0
  {
    var words := KeywordWords(anonymous, limit);
    forall i, k | 0 <= i < |words| && 0 <= k < |words[i]|
      ensures KeywordChar(words[i][k]) && words[i][k] != ' '
    {
      if words[i] != "anonymous" && words[i] != "limit" {
        assert words[i] == IntToString(limit.value);
      }
    }
  }

  /** The text written before the quoted words. */
  function KeywordText(anonymous: bool, limit: Option<int>): string {
    var words := KeywordWords(anonymous, limit);
    if |words| == 0 then "" else Join(words, ' ') + " "
  }

  /** The keyword text holds no opening quote. */
  lemma KeywordTextPlain(anonymous: bool, limit: Option<int>)
    ensures var pre := KeywordText(anonymous, limit);
      forall k :: 0 <= k < |pre| ==> !IsOpening(pre[k]) && KeywordChar(pre[k])
  {
    var words := KeywordWords(anonymous, limit);
    if |words| > 0 {
      KeywordWordsChars(anonymous, limit);
      JoinChars(words, ' ', KeywordChar);
      var j := Join(words, ' ');
      var pre := j + " ";
      forall k | 0 <= k < |pre|
        ensures KeywordChar(pre[k])
      {
        if k < |j| {
          assert KeywordChar(j[k]);
        }
      }
    }
  }

  /** Trimming and splitting the keyword text gives the keyword words back. */
  lemma KeywordTextSplit(anonymous: bool, limit: Option<int>)
    requires |KeywordWords(anonymous, limit)| > 0
    ensures Split(Trim(KeywordText(anonymous, limit)), ' ') == KeywordWords(anonymous, limit)
  {
    var words := KeywordWords(anonymous, limit);
    var j := Join(words, ' ');
    KeywordWordsChars(anonymous, limit);
    JoinLast(words, ' ');
    var last := words[|words| - 1];
    assert KeywordChar(last[|last| - 1]) && last[|last| - 1] != ' ';
    assert KeywordChar(words[0][0]) && words[0][0] != ' ';
    assert j[0] == words[0][0];
    TrimBeforeSpace(j, ' ');
    SplitJoin(words, ' ');
  }

  /** A quoted word list starts and ends with a straight double quote. */
  lemma {:induction false} QuotedListEnds(ws: seq<string>)
    requires |ws| >= 1
    ensures var q := QuotedList(ws); |q| >= 2 && q[0] == Straight && q[|q| - 1] == Straight
  {
    if |ws| > 1 {
      QuotedListEnds(ws[1..]);
    }
  }

  /** Stripping quoted words gives the words back. */
  lemma {:induction false} StripQuoted(ws: seq<string>)
    ensures StripAll(QuoteAll(ws)) == ws
  {
    if |ws| > 0 {
      StripQuoted(ws[1..]);
      assert QuoteAll(ws) == [Quote(ws[0])] + QuoteAll(ws[1..]);
      assert Strip(Quote(ws[0])) == ws[0];
    }
  }

  /** A command text is neither empty nor `help`. */
  lemma CommandTextNotHelp(anonymous: bool, limit: Option<int>, question: string, options: seq<string>)
    ensures var text := CommandText(anonymous, limit, question, options);
      text != "" && Trim(text) != "help"
  {
    var pre := KeywordText(anonymous, limit);
    var text := pre + QuotedList([question] + options);
    assert text == CommandText(anonymous, limit, question, options);
    KeywordTextPlain(anonymous, limit);
    QuotedListEnds([question] + options);
    assert text[|text| - 1] == Straight;
    assert !IsWhitespace(text[0]) by {
      if |pre| > 0 {
        assert KeywordChar(pre[0]) && text[0] == pre[0];
      }
    }
    assert TrimStart(text) == text;
    assert Trim(text) == text;
    assert "help"[3] != Straight;
  }

  /** Before a text that opens with a straight double quote, the keywords are the words of the prefix. */
  lemma KeywordArgsOfPrefix(pre: string, rest: string)
    requires Straight !in pre
    requires |rest| > 0 && rest[0] == Straight
    ensures KeywordArgs(pre + rest) == Split(Trim(pre), ' ')
  {
    var text := pre + rest;
    assert text[|pre|] == Straight;
    assert text[..|pre|] == pre;
    assert IndexOf(text, Straight) == |pre|;
    assert Substr(text, |pre|) == pre;
  }

  /** The words of the keyword text read as the settings it was written for. */
  lemma KeywordTextSettings(anonymous: bool, limit: Option<int>)
    ensures KeywordSettings(Split(Trim(KeywordText(anonymous, limit)), ' '))
         == Settings(anonymous, limit.Some?, limit)
  {
    KeywordWordsSettings(anonymous, limit);
    if |KeywordWords(anonymous, limit)| == 0 {
      assert Split(Trim(""), ' ') == [""];
    } else {
      KeywordTextSplit(anonymous, limit);
    }
  }

  /** The keyword scan of a command text reads the settings it was written with. */
  lemma CommandTextSettings(anonymous: bool, limit: Option<int>, question: string, options: seq<string>)
    ensures KeywordSettings(KeywordArgs(CommandText(anonymous, limit, question, options)))
         == Settings(anonymous, limit.Some?, limit)
  {
    var pre := KeywordText(anonymous, limit);
    var rest := QuotedList([question] + options);
    KeywordTextPlain(anonymous, limit);
    QuotedListEnds([question] + options);
    assert Straight !in pre by {
      forall k | 0 <= k < |pre|
        ensures pre[k] != Straight
      {
        assert !IsOpening(pre[k]);
      }
    }
    KeywordArgsOfPrefix(pre, rest);
    KeywordTextSettings(anonymous, limit);
  }

  /** The tokens of a command text are its quoted words, the keyword text yielding none. */
  lemma CommandTokens(anonymous: bool, limit: Option<int>, question: string, options: seq<string>)
    requires PlainWord(question)
    requires forall k :: 0 <= k < |options| ==> PlainWord(options[k])
    ensures Tokens(CommandText(anonymous, limit, question, options)) == QuoteAll([question] + options)
  {
    var pre := KeywordText(anonymous, limit);
    var ws := [question] + options;
    KeywordTextPlain(anonymous, limit);
    forall k | 0 <= k < |ws|
      ensures PlainWord(ws[k])
    {
      if k > 0 {
        assert ws[k] == options[k - 1];
      }
    }
    TokensAfterPlainText(pre, ws);
  }

  /** A text that is neither empty nor `help` and whose first token strips to a question posts a poll. */
  lemma CommandReplyPoll(text: string, question: string, options: seq<string>, s: Settings)
    requires text != "" && Trim(text) != "help"
    requires question != "" && Tokens(text) == QuoteAll([question] + options)
    requires KeywordSettings(KeywordArgs(text)) == s
    ensures CommandReply(Some(text)) == PollReply(PollBlocks(question, options, s))
  {
    var tokens := Tokens(text);
    assert QuoteAll([question] + options) == [Quote(question)] + QuoteAll(options);
    assert tokens[0] == Quote(question);
    assert Strip(tokens[0]) == question;
    assert tokens[1..] == QuoteAll(options);
    StripQuoted(options);
  }

  /**
   * Parsing inverts formatting for straight double quotes: the command written with its
   * keywords, a non-empty question and options that need no escape posts exactly the
   * poll of that question, those options and those settings.
   */
  lemma CommandRoundTrip(anonymous: bool, limit: Option<int>, question: string, options: seq<string>)
    requires question != "" && PlainWord(question)
    requires forall k :: 0 <= k < |options| ==> PlainWord(options[k])
    ensures CommandReply(Some(CommandText(anonymous, limit, question, options)))
         == PollReply(PollBlocks(question, options, Settings(anonymous, limit.Some?, limit)))
  {
    CommandTextNotHelp(anonymous, limit, question, options);
    CommandTextSettings(anonymous, limit, question, options);
    CommandTokens(anonymous, limit, question, options);
    CommandReplyPoll(CommandText(anonymous, limit, question, options), question, options,
      Settings(anonymous, limit.Some?, limit));
  }

  /**
   * The handler as a whole: an absent or empty text does nothing, `help` (after trimming)
   * answers the help message, and otherwise a poll is posted exactly when the question is
   * non-empty, whatever the number of options.
   */
  function CommandReply(body: Option<string>): Reply {
    match body
    case None => NoReply
    case Some(text) =>
      if text == "" then NoReply
      else if Trim(text) == "help" then HelpReply
      else
        var tokens := Tokens(text);
        if |tokens| == 0 || Strip(tokens[0]) == "" then NoReply
        else PollReply(PollBlocks(Strip(tokens[0]), StripAll(tokens[1..]), KeywordSettings(KeywordArgs(text))))
  }

  /** The POST / handler, from the command text to what it posts back. */
  method HandleCommand(body: Option<string>) returns (reply: Reply)
    ensures reply == CommandReply(body)
  {
    if body.None? || body.value == "" {
      return NoReply;
    }
    var text := body.value;
    if Trim(text) == "help" {
      return HelpReply;
    }
    var settings := ScanKeywords(KeywordArgs(text));
    var question, options := SplitQuestion(Tokens(text));
    if question.Some? && question.value != "" {
      var blocks := BuildBlocks(question.value, options, settings);
      reply := PollReply(blocks);
    } else {
      reply := NoReply;
    }
  }
}
