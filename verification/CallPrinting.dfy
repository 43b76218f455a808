/** Calls written out and read back (scripts/check-temp-path-guardrails.ts). The scanner's
    rules about quotes and brackets are put to the test of a small grammar of arguments:
    whatever it prints, the matcher and the splitter find again. */
module CallPrinting {
  import opened Basics
  import opened ParenScanner

  /** A character between quotes. */
  datatype QuotedChar = Bare(c: char) | Escaped(c: char)

  /** Plain characters, quoted texts and bracketed groups. */
  datatype Code =
    | Nil
    | Plain(c: char, rest: Code)
    | Quoted(quote: char, text: seq<QuotedChar>, rest: Code)
    | Group(open: char, inner: Code, rest: Code)

  function Closing(open: char): char {
    if open == '(' then ')' else if open == '[' then ']' else '}'
  }

  /** A quoted text has no bare backslash and no bare quote of its own kind; outside
      quotes a plain character is no quote and no bracket, nor, at the top, a comma. */
  predicate Legal(code: Code, top: bool) {
    match code
    case Nil => true
    case Plain(c, rest) =>
      && c !in ['\'', '"', '`', '(', ')', '[', ']', '{', '}'] && (top ==> c != ',')
      && Legal(rest, top)
    case Quoted(quote, text, rest) =>
      && quote in ['\'', '"', '`'] && LegalQuoted(quote, text) && Legal(rest, top)
    case Group(open, inner, rest) => open in ['(', '[', '{'] && Legal(inner, false) && Legal(rest, top)
  }

  predicate LegalQuoted(quote: char, text: seq<QuotedChar>) {
    forall i | 0 <= i < |text| :: text[i].Bare? ==> text[i].c != quote && text[i].c != '\\'
  }

  function PrintQuoted(text: seq<QuotedChar>): string {
    if text == [] then ""
    else (if text[0].Bare? then [text[0].c] else ['\\', text[0].c]) + PrintQuoted(text[1..])
  }

  function Print(code: Code): string {
    match code
    case Nil => ""
    case Plain(c, rest) => [c] + Print(rest)
    case Quoted(quote, text, rest) => ([quote] + PrintQuoted(text) + [quote]) + Print(rest)
    case Group(open, inner, rest) => ([open] + Print(inner) + [Closing(open)]) + Print(rest)
  }

  function PrintAll(codes: seq<Code>): (texts: seq<string>)
    ensures |texts| == |codes|
    ensures forall i | 0 <= i < |texts| :: texts[i] == Print(codes[i])
  {
    seq(|codes|, i requires 0 <= i < |codes| => Print(codes[i]))
  }

  // ------------------------------------------------------------ scanning over a text

  /** Reading `text` after `before` leaves all brackets as they were, never closes one that
      was open before, and meets no top-level comma. */
  ghost predicate Over(before: string, text: string) {
    && NestingOf(before + text) == NestingOf(before) && Depth(before + text) == Depth(before)
    && forall k: nat | |before| <= k <= |before + text| :: StaysAt(before, before + text, k)
  }

  ghost predicate StaysAt(before: string, whole: string, k: nat)
    requires k <= |whole|
  {
    Depth(whole[..k]) >= Depth(before) && (k < |whole| && whole[k] == ',' ==> !IsClosed(whole[..k]))
  }

  lemma {:induction false} StaysLonger(before: string, whole: string, more: string, k: nat)
    requires k < |whole| && StaysAt(before, whole, k)
    ensures StaysAt(before, whole + more, k)
  {
    hide Depth, IsClosed;
    assert (whole + more)[..k] == whole[..k];
  }

  lemma {:induction false} StaysFromSame(before: string, start: string, whole: string, k: nat)
    requires k <= |whole| && StaysAt(start, whole, k) && Depth(start) >= Depth(before)
    ensures StaysAt(before, whole, k)
  {
    hide Depth, IsClosed;
  }

  lemma {:induction false} OverNothing(before: string)
    ensures Over(before, "")
  {
    assert before + "" == before;
    assert before[..|before|] == before;
  }

  lemma {:induction false} OverBoth(before: string, a: string, b: string)
    requires Over(before, a) && Over(before + a, b)
    ensures before + (a + b) == (before + a) + b && Over(before, a + b)
  {
    hide NestingOf, Depth, StaysAt;
    var whole := before + (a + b);
    assert whole == (before + a) + b;
    forall k: nat | |before| <= k <= |whole| ensures StaysAt(before, whole, k) {
      if k < |before + a| {
        StaysLonger(before, before + a, b, k);
      } else {
        StaysFromSame(before, before + a, whole, k);
      }
    }
  }

  lemma {:induction false} OneChar(before: string, c: char)
    ensures ScanOf(before + [c]) == Advance(ScanOf(before), c)
    ensures NestingOf(before + [c])
         == if ScanOf(before).quote.Some? then NestingOf(before) else Nest(NestingOf(before), c)
    ensures Depth(before + [c])
         == Depth(before) + if ScanOf(before).quote.Some? then 0 else if c == '(' then 1 else if c == ')' then -1 else 0
  {
    assert (before + [c])[..|before|] == before;
  }

  /** A character that changes no depth and is no top-level comma. */
  lemma {:induction false} OverChar(before: string, c: char)
    requires NestingOf(before + [c]) == NestingOf(before) && Depth(before + [c]) == Depth(before)
    requires c == ',' ==> !IsClosed(before)
    ensures Over(before, [c])
  {
    hide NestingOf, Depth, IsClosed;
    var whole := before + [c];
    assert whole[..|before|] == before && whole[..|whole|] == whole;
    assert StaysAt(before, whole, |before|) && StaysAt(before, whole, |whole|);
  }

  /** Between quotes everything is skipped. */
  lemma {:induction false} OverQuoted(before: string, quote: char, text: seq<QuotedChar>)
    requires ScanOf(before) == Scan(Some(quote), false) && LegalQuoted(quote, text)
    ensures ScanOf(before + PrintQuoted(text)) == Scan(Some(quote), false) && Over(before, PrintQuoted(text))
    decreases |text|
  {
    if text == [] {
      assert before + PrintQuoted(text) == before;
      OverNothing(before);
    } else {
      var first := if text[0].Bare? then [text[0].c] else ['\\', text[0].c];
      OverQuotedChar(before, quote, text[0]);
      OverQuoted(before + first, quote, text[1..]);
      hide ScanOf, NestingOf, Depth, Over;
      OverBoth(before, first, PrintQuoted(text[1..]));
    }
  }

  lemma {:induction false} OverQuotedChar(before: string, quote: char, c: QuotedChar)
    requires ScanOf(before) == Scan(Some(quote), false) && LegalQuoted(quote, [c])
    ensures var first := if c.Bare? then [c.c] else ['\\', c.c];
            ScanOf(before + first) == Scan(Some(quote), false) && Over(before, first)
  {
    assert [c][0] == c;
    if c.Bare? {
      OneChar(before, c.c);
      hide ScanOf, NestingOf, Depth, Over;
      OverChar(before, c.c);
    } else {
      OneChar(before, '\\');
      OneChar(before + ['\\'], c.c);
      hide ScanOf, NestingOf, Depth, Over;
      OverChar(before, '\\');
      OverChar(before + ['\\'], c.c);
      OverBoth(before, ['\\'], [c.c]);
      assert ['\\'] + [c.c] == ['\\', c.c];
    }
  }

  /** A quoted text: the quote closes where it should. */
  lemma {:induction false} OverQuotation(before: string, quote: char, text: seq<QuotedChar>)
    requires ScanOf(before) == UNQUOTED && quote in ['\'', '"', '`'] && LegalQuoted(quote, text)
    ensures var printed := [quote] + PrintQuoted(text) + [quote];
            ScanOf(before + printed) == UNQUOTED && Over(before, printed)
  {
    hide ScanOf, NestingOf, Depth, Over, PrintQuoted, LegalQuoted;
    var begun, body := before + [quote], PrintQuoted(text);
    OneChar(before, quote);
    OverChar(before, quote);
    OverQuoted(begun, quote, text);
    OverBoth(before, [quote], body);
    OneChar(begun + body, quote);
    OverChar(begun + body, quote);
    OverBoth(before, [quote] + body, [quote]);
  }

  /** A bracketed group closes what it opens. */
  lemma {:induction false} OverGroup(before: string, open: char, inner: string)
    requires ScanOf(before) == UNQUOTED && open in ['(', '[', '{']
    requires ScanOf(before + [open] + inner) == UNQUOTED && Over(before + [open], inner)
    ensures var printed := [open] + inner + [Closing(open)];
            ScanOf(before + printed) == UNQUOTED && Over(before, printed)
  {
    hide ScanOf, Depth, IsClosed, StaysAt;
    var begun, close := before + [open], Closing(open);
    var whole := before + ([open] + inner + [close]);
    assert whole == (begun + inner) + [close];
    OneChar(before, open);
    OneChar(begun + inner, close);
    hide NestingOf;
    forall k: nat | |before| <= k <= |whole| ensures StaysAt(before, whole, k) {
      if k == |before| {
        StaysHere(before, [open] + inner + [close]);
      } else if k <= |begun + inner| {
        StaysInside(before, begun, begun + inner, close, k);
      } else {
        StaysAtEnd(before, whole);
      }
    }
  }

  lemma {:induction false} StaysHere(before: string, text: string)
    requires text != "" && text[0] != ','
    ensures StaysAt(before, before + text, |before|)
  {
    hide Depth, IsClosed;
    assert (before + text)[..|before|] == before && (before + text)[|before|] == text[0];
  }

  lemma {:induction false} StaysAtEnd(before: string, whole: string)
    requires Depth(whole) >= Depth(before)
    ensures StaysAt(before, whole, |whole|)
  {
    hide Depth, IsClosed;
    assert whole[..|whole|] == whole;
  }

  lemma {:induction false} StaysInside(before: string, start: string, whole: string, close: char, k: nat)
    requires k <= |whole| && StaysAt(start, whole, k) && Depth(start) >= Depth(before) && close != ','
    ensures StaysAt(before, whole + [close], k)
  {
    hide Depth, IsClosed;
    assert (whole + [close])[..k] == whole[..k];
  }

  /** At the top, or inside brackets, any legal code is passed over. */
  lemma {:induction false} OverCode(before: string, code: Code, top: bool)
    requires ScanOf(before) == UNQUOTED && Legal(code, top) && (!top ==> NestingOf(before) != TOP)
    ensures ScanOf(before + Print(code)) == UNQUOTED && Over(before, Print(code))
    decreases code
  {
    hide ScanOf, NestingOf, Depth, Over, PrintQuoted, LegalQuoted;
    match code
    case Nil =>
      assert before + Print(code) == before;
      OverNothing(before);
    case Plain(c, rest) =>
      OneChar(before, c);
      OverChar(before, c);
      OverCode(before + [c], rest, top);
      OverBoth(before, [c], Print(rest));
    case Quoted(quote, text, rest) =>
      var first := [quote] + PrintQuoted(text) + [quote];
      OverQuotation(before, quote, text);
      OverKeepsNesting(before, first);
      OverCode(before + first, rest, top);
      OverBoth(before, first, Print(rest));
    case Group(open, inner, rest) =>
      var first := [open] + Print(inner) + [Closing(open)];
      OneChar(before, open);
      OverCode(before + [open], inner, false);
      OverGroup(before, open, Print(inner));
      OverKeepsNesting(before, first);
      OverCode(before + first, rest, top);
      OverBoth(before, first, Print(rest));
  }

  lemma {:induction false} OverKeepsNesting(before: string, text: string)
    requires Over(before, text)
    ensures NestingOf(before + text) == NestingOf(before)
  {
  }

  // ---------------------------------------------------------------- the round trip

  lemma {:induction false} ArgumentStandsAlone(code: Code)
    requires Legal(code, true)
    ensures HasNoTopComma(Print(code)) && IsClosed(Print(code))
  {
    var text := Print(code);
    NothingRead();
    OverCode("", code, true);
    assert "" + text == text;
    hide ScanOf, NestingOf, Depth, Print, Legal;
    forall k | 0 <= k < |text| && text[k] == ',' ensures !IsClosed(text[..k]) {
      assert StaysAt("", "" + text, k);
    }
  }

  lemma {:induction false} NothingRead()
    ensures ScanOf("") == UNQUOTED && NestingOf("") == TOP && Depth("") == 0
  {
  }

  /** Arguments written out with commas in between are split into exactly those. */
  lemma {:induction false} SplitFindsArguments(codes: seq<Code>)
    requires codes != [] && forall i | 0 <= i < |codes| :: Legal(codes[i], true)
    ensures Pieces(JoinCommas(PrintAll(codes))) == PrintAll(codes)
  {
    var texts := PrintAll(codes);
    forall i | 0 <= i < |codes| ensures HasNoTopComma(texts[i]) && IsClosed(texts[i]) {
      ArgumentStandsAlone(codes[i]);
    }
    hide HasNoTopComma, IsClosed, Pieces, JoinCommas;
    PiecesIffSplit(JoinCommas(texts), texts);
  }

  /** The joined arguments, read after an opening parenthesis, leave it open all along. */
  lemma {:induction false} JoinedKeepsDepth(before: string, codes: seq<Code>)
    requires codes != [] && forall i | 0 <= i < |codes| :: Legal(codes[i], true)
    requires ScanOf(before) == UNQUOTED && NestingOf(before) != TOP
    ensures var text := JoinCommas(PrintAll(codes));
            ScanOf(before + text) == UNQUOTED && Over(before, text)
    decreases |codes|
  {
    var n := |codes| - 1;
    var texts := PrintAll(codes);
    if n == 0 {
      LegalAnywhere(codes[0]);
      OverCode(before, codes[0], false);
    } else {
      var shorter := JoinCommas(PrintAll(codes[..n]));
      assert texts[..n] == PrintAll(codes[..n]);
      JoinedKeepsDepth(before, codes[..n]);
      OneChar(before + shorter, ',');
      LegalAnywhere(codes[n]);
      assert NestingOf(before + shorter) == NestingOf(before);
      OverCode(before + shorter + ",", codes[n], false);
      hide ScanOf, NestingOf, Depth, Over;
      OverChar(before + shorter, ',');
      OverBoth(before, shorter, ",");
      OverBoth(before, shorter + ",", texts[n]);
    }
  }

  lemma {:induction false} LegalAnywhere(code: Code)
    requires Legal(code, true)
    ensures Legal(code, false)
  {
    match code
    case Nil =>
    case Plain(_, rest) => LegalAnywhere(rest);
    case Quoted(_, _, rest) => LegalAnywhere(rest);
    case Group(_, _, rest) => LegalAnywhere(rest);
  }

  /** The parenthesis of a written call is matched by the one that closes it. */
  lemma {:induction false} MatcherFindsClosing(codes: seq<Code>, before: string, after: string)
    requires codes != [] && forall i | 0 <= i < |codes| :: Legal(codes[i], true)
    ensures var text := JoinCommas(PrintAll(codes));
            var source, index := before + ("(" + text + ")") + after, |before| + 1 + |text|;
            && source[|before| + 1..index] == text
            && DepthAfter(source, |before|, index) == 0
            && forall k | |before| < k < index :: DepthAfter(source, |before|, k) > 0
  {
    TextKeepsDepth(codes);
    hide *;
    MatcherFindsEnd(before, JoinCommas(PrintAll(codes)), after);
  }

  lemma {:induction false} MatcherFindsEnd(before: string, text: string, after: string)
    requires ScanOf(text) == UNQUOTED && Depth(text) == 0 && forall k | 0 <= k <= |text| :: Depth(text[..k]) >= 0
    ensures var source, index := before + ("(" + text + ")") + after, |before| + 1 + |text|;
            && source[|before| + 1..index] == text
            && DepthAfter(source, |before|, index) == 0
            && forall k | |before| < k < index :: DepthAfter(source, |before|, k) > 0
  {
    var source, from := before + ("(" + text + ")") + after, |before| + 1;
    hide ScanOf, Depth;
    OneChar(text, ')');
    CallText(before, text, after, |text|);
    assert text[..|text|] == text;
    forall k | |before| < k < from + |text| ensures DepthAfter(source, |before|, k) > 0 {
      var n := k - |before|;
      CallText(before, text, after, n);
      assert from + n == k + 1;
    }
  }

  lemma {:induction false} CallText(before: string, text: string, after: string, k: nat)
    requires k <= |text|
    ensures var source, from := before + ("(" + text + ")") + after, |before| + 1;
            source[from..from + k] == text[..k] && source[from..from + |text| + 1] == text + [')']
  {
    var source, from := before + ("(" + text + ")") + after, |before| + 1;
    assert source == (before + "(") + (text + [')']) + after;
    assert source[from..from + |text| + 1] == text + [')'];
    assert source[from..from + k] == (text + [')'])[..k];
  }

  /** Read on its own, the text of the arguments never closes more than it opens. */
  lemma {:induction false} TextKeepsDepth(codes: seq<Code>)
    requires codes != [] && forall i | 0 <= i < |codes| :: Legal(codes[i], true)
    ensures var text := JoinCommas(PrintAll(codes));
            && ScanOf(text) == UNQUOTED && Depth(text) == 0
            && forall k | 0 <= k <= |text| :: Depth(text[..k]) >= 0
  {
    var text := JoinCommas(PrintAll(codes));
    OneParen();
    hide Legal, JoinCommas, ScanOf, NestingOf, Depth;
    JoinedKeepsDepth("(", codes);
    ReadAfterParen(text);
    forall k | 0 <= k <= |text| ensures Depth(text[..k]) >= 0 {
      assert StaysAt("(", "(" + text, k + 1);
      PrefixAfterParen(text, k);
    }
  }

  lemma {:induction false} OneParen()
    ensures ScanOf("(") == UNQUOTED && NestingOf("(") != TOP && Depth("(") == 1
  {
    NothingRead();
    OneChar("", '(');
    assert "" + ['('] == "(";
  }

  lemma {:induction false} PrefixAfterParen(text: string, k: nat)
    requires k <= |text| && StaysAt("(", "(" + text, k + 1)
    ensures Depth(text[..k]) >= 0
  {
    OneParen();
    ReadAfterParen(text[..k]);
    hide Depth, IsClosed;
    assert ("(" + text)[..k + 1] == "(" + text[..k];
  }

  lemma {:induction false} ReadAfterParen(text: string)
    ensures ScanOf("(" + text) == ScanOf(text) && Depth("(" + text) == 1 + Depth(text)
    decreases |text|
  {
    if text == "" {
      NothingRead();
      OneChar("", '(');
      assert "(" + text == "" + ['('];
    } else {
      var shorter, c := text[..|text| - 1], text[|text| - 1];
      ReadAfterParen(shorter);
      OneChar("(" + shorter, c);
      OneChar(shorter, c);
      assert "(" + text == ("(" + shorter) + [c] && text == shorter + [c];
    }
  }

  /** Writing a call and reading its arguments back gives each of them trimmed, without a
      blank last one, wherever the call stands. */
  method ReadCall(codes: seq<Code>, before: string, after: string) returns (arguments: Option<seq<string>>)
    requires codes != [] && forall i | 0 <= i < |codes| :: Legal(codes[i], true)
    ensures arguments.Some?
    ensures var n := |codes| - if Trim(Print(codes[|codes| - 1])) == "" then 1 else 0;
            && |arguments.value| == n
            && forall i | 0 <= i < n :: arguments.value[i] == Trim(Print(codes[i]))
  {
    hide *;
    var text := JoinCommas(PrintAll(codes));
    var source := before + ("(" + text + ")") + after;
    MatcherFindsClosing(codes, before, after);
    SplitFindsArguments(codes);
    ArgumentsAreTrimmedPieces(text);
    arguments := CallArguments(source, |before|);
  }
}
