/** Call arguments in source text (scripts/check-temp-path-guardrails.ts): finding the
    parenthesis that closes a call, and splitting what is in between at its top-level
    commas. Both skip quoted sections with the same little state machine. */
module ParenScanner {
  import opened Basics

  predicate IsQuoteChar(c: char) {
    c == '\'' || c == '"' || c == '`'
  }

  /** What `QuoteScanState` holds. */
  datatype Scan = Scan(quote: Option<char>, escaped: bool)

  const UNQUOTED := Scan(None, false)

  function Advance(scan: Scan, c: char): Scan {
    if scan.quote.Some? then
      if scan.escaped then scan.(escaped := false)
      else if c == '\\' then scan.(escaped := true)
      else if c == scan.quote.value then scan.(quote := None)
      else scan
    else if IsQuoteChar(c) then scan.(quote := Some(c))
    else scan
  }

  function ScanOf(text: string): Scan {
    if text == "" then UNQUOTED else Advance(ScanOf(text[..|text| - 1]), text[|text| - 1])
  }

  /** Opening minus closing parentheses outside quotes. */
  function Depth(text: string): int {
    if text == "" then 0
    else
      var before, c := text[..|text| - 1], text[|text| - 1];
      Depth(before) + if ScanOf(before).quote.Some? then 0 else if c == '(' then 1 else if c == ')' then -1 else 0
  }

  /** The mutable scan state both functions keep. */
  class QuoteScanState {
    var quote: Option<char>
    var escaped: bool

    ghost function Now(): Scan
      reads this
    {
      Scan(quote, escaped)
    }

    constructor ()
      ensures Now() == UNQUOTED
    {
      quote, escaped := None, false;
    }

    method BeginQuotedSection(c: char) returns (begun: bool)
      requires quote.None?
      modifies this
      ensures begun == IsQuoteChar(c) && Now() == Advance(old(Now()), c)
    {
      if !IsQuoteChar(c) {
        return false;
      }
      quote := Some(c);
      return true;
    }

    method ConsumeQuotedChar(c: char) returns (consumed: bool)
      modifies this
      ensures consumed == old(quote).Some?
      ensures Now() == if consumed then Advance(old(Now()), c) else old(Now())
    {
      if quote.None? {
        return false;
      }
      if escaped {
        escaped := false;
        return true;
      }
      if c == '\\' {
        escaped := true;
        return true;
      }
      if Some(c) == quote {
        quote := None;
      }
      return true;
    }
  }

  lemma {:induction false} OneMore(text: string, from: nat, to: nat)
    requires from <= to < |text|
    ensures ScanOf(text[from..to + 1]) == Advance(ScanOf(text[from..to]), text[to])
    ensures Depth(text[from..to + 1]) == Depth(text[from..to]) +
              if ScanOf(text[from..to]).quote.Some? then 0
              else if text[to] == '(' then 1
              else if text[to] == ')' then -1
              else 0
  {
    var longer := text[from..to + 1];
    assert longer[..|longer| - 1] == text[from..to];
  }

  lemma {:induction false} DepthOfNothing(text: string, at: nat)
    requires at <= |text|
    ensures ScanOf(text[at..at]) == UNQUOTED && Depth(text[at..at]) == 0
  {
  }

  /** How many parentheses are open after `index`, counting from the one at `openIndex`. */
  function DepthAfter(source: string, openIndex: nat, index: nat): int
    requires openIndex <= index < |source|
  {
    1 + Depth(source[openIndex + 1..index + 1])
  }

  /** Finds the first position at which the parenthesis opened at `openIndex` is closed,
      counting outside quotes; -1 if there is none. */
  method FindMatchingParen(source: string, openIndex: nat) returns (index: int)
    ensures -1 == index || openIndex < index < |source|
    ensures index != -1 ==> DepthAfter(source, openIndex, index) == 0
    ensures forall k | openIndex < k < (if index == -1 then |source| else index) :: DepthAfter(source, openIndex, k) > 0
  {
    hide ScanOf, Depth;
    var depth := 1;
    var quoteState := new QuoteScanState();
    if openIndex + 1 >= |source| {
      return -1;
    }
    DepthOfNothing(source, openIndex + 1);
    for i := openIndex + 1 to |source|
      invariant fresh(quoteState)
      invariant quoteState.Now() == ScanOf(source[openIndex + 1..i])
      invariant depth == 1 + Depth(source[openIndex + 1..i]) && depth > 0
      invariant forall k | openIndex < k < i :: DepthAfter(source, openIndex, k) > 0
    {
      OneMore(source, openIndex + 1, i);
      var ch := source[i];
      var consumed := quoteState.ConsumeQuotedChar(ch);
      if consumed {
        continue;
      }
      var begun := quoteState.BeginQuotedSection(ch);
      if begun {
        continue;
      }
      if ch == '(' {
        depth := depth + 1;
        continue;
      }
      if ch == ')' {
        depth := depth - 1;
        if depth == 0 {
          return i;
        }
      }
    }
    return -1;
  }

  // ------------------------------------------------------------------- splitting

  /** Open brackets of each kind; a closing bracket too many is ignored. */
  datatype Nesting = Nesting(parens: nat, brackets: nat, braces: nat)

  const TOP := Nesting(0, 0, 0)

  function Less(n: nat): nat {
    if n > 0 then n - 1 else n
  }

  function Nest(nesting: Nesting, c: char): Nesting {
    if c == '(' then nesting.(parens := nesting.parens + 1)
    else if c == ')' then nesting.(parens := Less(nesting.parens))
    else if c == '[' then nesting.(brackets := nesting.brackets + 1)
    else if c == ']' then nesting.(brackets := Less(nesting.brackets))
    else if c == '{' then nesting.(braces := nesting.braces + 1)
    else if c == '}' then nesting.(braces := Less(nesting.braces))
    else nesting
  }

  function NestingOf(text: string): Nesting {
    if text == "" then TOP
    else
      var before := text[..|text| - 1];
      if ScanOf(before).quote.Some? then NestingOf(before) else Nest(NestingOf(before), text[|text| - 1])
  }

  /** Neither within quotes nor within brackets. */
  predicate IsClosed(text: string) {
    ScanOf(text).quote.None? && NestingOf(text) == TOP
  }

  /** The text between the top-level commas. */
  function Pieces(text: string): (pieces: seq<string>)
    ensures pieces != []
  {
    if text == "" then [""]
    else
      var before, c := text[..|text| - 1], text[|text| - 1];
      var pieces := Pieces(before);
      if c == ',' && IsClosed(before) then pieces + [""]
      else pieces[..|pieces| - 1] + [pieces[|pieces| - 1] + [c]]
  }

  function TrimAll(pieces: seq<string>): seq<string> {
    if pieces == [] then [] else TrimAll(pieces[..|pieces| - 1]) + [Trim(pieces[|pieces| - 1])]
  }

  /** The pieces trimmed, without a blank last one. */
  function Arguments(text: string): seq<string> {
    var pieces := Pieces(text);
    var last := Trim(pieces[|pieces| - 1]);
    TrimAll(pieces[..|pieces| - 1]) + if last == "" then [] else [last]
  }

  /** One more character; `done` and `current` are the pieces so far. */
  lemma {:induction false} OneMorePiece(text: string, i: nat, done: seq<string>, current: string)
    requires i < |text| && Pieces(text[..i]) == done + [current]
    ensures var before, c := text[..i], text[i];
            && ScanOf(text[..i + 1]) == Advance(ScanOf(before), c)
            && NestingOf(text[..i + 1])
              == (if ScanOf(before).quote.Some? then NestingOf(before) else Nest(NestingOf(before), c))
            && Pieces(text[..i + 1]) == (if c == ',' && IsClosed(before) then (done + [current]) + [""]
                                         else done + [current + [c]])
  {
    assert text[..i + 1][..i] == text[..i];
    assert (done + [current])[..|done|] == done;
  }

  lemma {:induction false} ArgumentsOfPieces(text: string, done: seq<string>, current: string)
    requires Pieces(text) == done + [current]
    ensures Arguments(text) == TrimAll(done) + if Trim(current) == "" then [] else [Trim(current)]
  {
    assert (done + [current])[..|done|] == done;
  }

  lemma {:induction false} TrimOneMore(done: seq<string>, current: string)
    ensures TrimAll(done + [current]) == TrimAll(done) + [Trim(current)]
  {
    assert (done + [current])[..|done|] == done;
  }

  method CountBracket(ch: char, parenDepth: nat, bracketDepth: nat, braceDepth: nat)
    returns (parens: nat, brackets: nat, braces: nat)
    ensures Nesting(parens, brackets, braces) == Nest(Nesting(parenDepth, bracketDepth, braceDepth), ch)
  {
    parens, brackets, braces := parenDepth, bracketDepth, braceDepth;
    if ch == '(' {
      parens := parens + 1;
    } else if ch == ')' {
      if parens > 0 {
        parens := parens - 1;
      }
    } else if ch == '[' {
      brackets := brackets + 1;
    } else if ch == ']' {
      if brackets > 0 {
        brackets := brackets - 1;
      }
    } else if ch == '{' {
      braces := braces + 1;
    } else if ch == '}' {
      if braces > 0 {
        braces := braces - 1;
      }
    }
  }

  method SplitTopLevelArguments(source: string) returns (out: seq<string>)
    ensures out == Arguments(source)
  {
    assert ScanOf("") == UNQUOTED && NestingOf("") == TOP && Pieces("") == [""] && TrimAll([]) == [];
    hide ScanOf, NestingOf, Pieces, Nest, TrimAll, Trim, Advance, Arguments;
    out := [];
    var current := "";
    ghost var done: seq<string> := [];
    var parenDepth: nat, bracketDepth: nat, braceDepth: nat := 0, 0, 0;
    var quoteState := new QuoteScanState();
    assert source[..0] == "" && done + [""] == [""];
    for i := 0 to |source|
      invariant fresh(quoteState)
      invariant quoteState.Now() == ScanOf(source[..i])
      invariant Nesting(parenDepth, bracketDepth, braceDepth) == NestingOf(source[..i])
      invariant Pieces(source[..i]) == done + [current] && out == TrimAll(done)
    {
      OneMorePiece(source, i, done, current);
      var ch := source[i];
      if quoteState.quote.Some? {
        current := current + [ch];
        var _ := quoteState.ConsumeQuotedChar(ch);
        continue;
      }
      var begun := quoteState.BeginQuotedSection(ch);
      if begun {
        NoBracket(ch, parenDepth, bracketDepth, braceDepth);
        current := current + [ch];
        continue;
      }
      if ch == ',' && parenDepth == 0 && bracketDepth == 0 && braceDepth == 0 {
        NoBracket(ch, parenDepth, bracketDepth, braceDepth);
        TrimOneMore(done, current);
        done := done + [current];
        out := out + [Trim(current)];
        current := "";
        continue;
      }
      parenDepth, bracketDepth, braceDepth := CountBracket(ch, parenDepth, bracketDepth, braceDepth);
      current := current + [ch];
    }
    assert source[..|source|] == source;
    ArgumentsOfPieces(source, done, current);
    if Trim(current) != "" {
      out := out + [Trim(current)];
    }
  }

  lemma {:induction false} NoBracket(c: char, parens: nat, brackets: nat, braces: nat)
    requires IsQuoteChar(c) || c == ','
    ensures Nest(Nesting(parens, brackets, braces), c) == Nesting(parens, brackets, braces)
  {
  }

  // ------------------------------------------------------------- what a split is

  function JoinCommas(pieces: seq<string>): string
    requires pieces != []
  {
    if |pieces| == 1 then pieces[0] else JoinCommas(pieces[..|pieces| - 1]) + "," + pieces[|pieces| - 1]
  }

  /** Every comma stands within quotes or brackets. */
  predicate HasNoTopComma(piece: string) {
    forall k | 0 <= k < |piece| && piece[k] == ',' :: !IsClosed(piece[..k])
  }

  /** No piece has a top-level comma, and each but the last ends outside all quotes and
      brackets. */
  predicate IsSplit(pieces: seq<string>) {
    && pieces != []
    && (forall i | 0 <= i < |pieces| :: HasNoTopComma(pieces[i]))
    && (forall i | 0 <= i < |pieces| - 1 :: IsClosed(pieces[i]))
  }

  lemma {:induction false} NoTopCommaLonger(piece: string, c: char)
    ensures HasNoTopComma(piece + [c]) <==> HasNoTopComma(piece) && !(c == ',' && IsClosed(piece))
  {
    var longer := piece + [c];
    hide IsClosed;
    assert forall k | 0 <= k <= |piece| :: longer[..k] == piece[..k];
    assert piece[..|piece|] == piece;
    if HasNoTopComma(longer) {
      assert c == ',' ==> !IsClosed(longer[..|piece|]);
      forall k | 0 <= k < |piece| && piece[k] == ',' ensures !IsClosed(piece[..k]) {
        assert longer[k] == ',' && longer[..k] == piece[..k];
      }
    }
  }

  lemma {:induction false} OnePieceIff(piece: string)
    ensures Pieces(piece) == [piece] <==> HasNoTopComma(piece)
  {
    if piece != "" {
      var before, c := piece[..|piece| - 1], piece[|piece| - 1];
      assert piece == before + [c];
      OnePieceIff(before);
      NoTopCommaLonger(before, c);
      AddChar(before, c);
      hide IsClosed, HasNoTopComma, Pieces;
      LongerIsOnePiece(Pieces(before), before, c);
    }
  }

  lemma {:induction false} LongerIsOnePiece(pieces: seq<string>, before: string, c: char)
    requires pieces != []
    ensures pieces[..|pieces| - 1] + [pieces[|pieces| - 1] + [c]] == [before + [c]] <==> pieces == [before]
    ensures pieces + [""] != [before + [c]]
  {
    var longer := pieces[..|pieces| - 1] + [pieces[|pieces| - 1] + [c]];
    assert |longer| == |pieces|;
    if longer == [before + [c]] {
      assert longer[0] == pieces[0] + [c];
      assert pieces[0] == (pieces[0] + [c])[..|pieces[0]|] && before == (before + [c])[..|before|];
    }
  }

  lemma {:induction false} AddChar(before: string, c: char)
    ensures ScanOf(before + [c]) == Advance(ScanOf(before), c)
    ensures NestingOf(before + [c])
         == if ScanOf(before).quote.Some? then NestingOf(before) else Nest(NestingOf(before), c)
    ensures var pieces := Pieces(before);
            Pieces(before + [c]) == if c == ',' && IsClosed(before) then pieces + [""]
                                    else pieces[..|pieces| - 1] + [pieces[|pieces| - 1] + [c]]
  {
    assert (before + [c])[..|before|] == before;
  }

  /** After a top-level comma everything starts afresh. */
  lemma {:induction false} CommaStartsAfresh(before: string, piece: string)
    requires IsClosed(before)
    ensures ScanOf(before + "," + piece) == ScanOf(piece) && NestingOf(before + "," + piece) == NestingOf(piece)
    ensures Pieces(before + "," + piece) == Pieces(before) + Pieces(piece)
    decreases |piece|
  {
    hide *;
    if piece == "" {
      CommaEnds(before);
    } else {
      var shorter, c := piece[..|piece| - 1], piece[|piece| - 1];
      CommaStartsAfresh(before, shorter);
      LastCharOf(before, piece);
      SameClosed(before + "," + shorter, shorter);
      AddChar(before + "," + shorter, c);
      AddChar(shorter, c);
      PiecesContinue(Pieces(before), Pieces(shorter), c);
    }
  }

  lemma {:induction false} CommaEnds(before: string)
    requires IsClosed(before)
    ensures ScanOf(before + "," + "") == ScanOf("") && NestingOf(before + "," + "") == NestingOf("")
    ensures Pieces(before + "," + "") == Pieces(before) + Pieces("")
  {
    ScanIsUnquoted(before);
    AddChar(before, ',');
    assert before + "," + "" == before + [','];
    assert ScanOf("") == UNQUOTED && NestingOf("") == TOP && Pieces("") == [""];
    hide ScanOf, NestingOf, Pieces;
  }

  lemma LastCharOf(before: string, piece: string)
    requires piece != ""
    ensures piece == piece[..|piece| - 1] + [piece[|piece| - 1]]
    ensures before + "," + piece == (before + "," + piece[..|piece| - 1]) + [piece[|piece| - 1]]
  {
  }

  lemma SameClosed(a: string, b: string)
    requires ScanOf(a) == ScanOf(b) && NestingOf(a) == NestingOf(b)
    ensures IsClosed(a) == IsClosed(b)
  {
  }

  lemma {:induction false} PiecesContinue(first: seq<string>, more: seq<string>, c: char)
    requires more != []
    ensures (first + more)[..|first + more| - 1] + [(first + more)[|first + more| - 1] + [c]]
         == first + (more[..|more| - 1] + [more[|more| - 1] + [c]])
    ensures (first + more) + [""] == first + (more + [""])
  {
  }

  /** Outside quotes nothing is escaped. */
  lemma {:induction false} ScanIsUnquoted(text: string)
    ensures ScanOf(text).quote.None? ==> ScanOf(text) == UNQUOTED
  {
    if text != "" {
      ScanIsUnquoted(text[..|text| - 1]);
    }
  }

  lemma {:induction false} PiecesAreSplit(text: string)
    ensures IsSplit(Pieces(text)) && JoinCommas(Pieces(text)) == text
    ensures var last := Pieces(text)[|Pieces(text)| - 1];
            ScanOf(last) == ScanOf(text) && NestingOf(last) == NestingOf(text)
  {
    hide *;
    if text == "" {
      NoPieces();
    } else {
      var before, c := text[..|text| - 1], text[|text| - 1];
      PiecesAreSplit(before);
      AddChar(before, c);
      assert text == before + [c];
      SameClosed(Pieces(before)[|Pieces(before)| - 1], before);
      if c == ',' && IsClosed(before) {
        CommaAddsPiece(before, Pieces(before));
      } else {
        LongerLastPiece(Pieces(before), c, before);
      }
    }
  }

  lemma {:induction false} NoPieces()
    ensures Pieces("") == [""] && IsSplit([""]) && JoinCommas([""]) == "" && HasNoTopComma("")
  {
    assert [""][0] == "";
  }

  lemma {:induction false} CommaAddsPiece(before: string, pieces: seq<string>)
    requires IsSplit(pieces) && JoinCommas(pieces) == before && IsClosed(before)
    requires IsClosed(pieces[|pieces| - 1])
    ensures IsSplit(pieces + [""]) && JoinCommas(pieces + [""]) == before + [',']
    ensures ScanOf("") == ScanOf(before + [',']) && NestingOf("") == NestingOf(before + [','])
  {
    AddChar(before, ',');
    ScanIsUnquoted(before);
    NoPieces();
    assert (pieces + [""])[..|pieces|] == pieces;
    hide ScanOf, NestingOf, Pieces;
    assert before + "," + "" == before + [','];
  }

  lemma {:induction false} LongerLastPiece(pieces: seq<string>, c: char, before: string)
    requires IsSplit(pieces) && JoinCommas(pieces) == before
    requires var last := pieces[|pieces| - 1]; ScanOf(last) == ScanOf(before) && NestingOf(last) == NestingOf(before)
    requires !(c == ',' && IsClosed(before))
    ensures var last := pieces[|pieces| - 1] + [c];
            && IsSplit(pieces[..|pieces| - 1] + [last]) && JoinCommas(pieces[..|pieces| - 1] + [last]) == before + [c]
            && ScanOf(last) == ScanOf(before + [c]) && NestingOf(last) == NestingOf(before + [c])
  {
    var n := |pieces| - 1;
    var last := pieces[n] + [c];
    AddChar(pieces[n], c);
    AddChar(before, c);
    assert HasNoTopComma(pieces[n]) && IsClosed(pieces[n]) == IsClosed(before);
    NoTopCommaLonger(pieces[n], c);
    hide *;
    ReplaceLast(pieces, last);
    JoinLonger(pieces, c);
  }

  lemma {:induction false} ReplaceLast(pieces: seq<string>, last: string)
    requires IsSplit(pieces) && HasNoTopComma(last)
    ensures IsSplit(pieces[..|pieces| - 1] + [last])
  {
    hide HasNoTopComma, IsClosed;
    var longer := pieces[..|pieces| - 1] + [last];
    assert forall i | 0 <= i < |pieces| - 1 :: longer[i] == pieces[i];
  }

  lemma {:induction false} JoinLonger(pieces: seq<string>, c: char)
    requires pieces != []
    ensures JoinCommas(pieces[..|pieces| - 1] + [pieces[|pieces| - 1] + [c]]) == JoinCommas(pieces) + [c]
  {
    var n := |pieces| - 1;
    assert (pieces[..n] + [pieces[n] + [c]])[..n] == pieces[..n];
    if n > 0 {
      assert JoinCommas(pieces[..n]) + "," + (pieces[n] + [c]) == JoinCommas(pieces[..n]) + "," + pieces[n] + [c];
    }
  }

  /** The pieces are the one way to cut the text at its top-level commas: they are a
      split that joined by commas gives the text back, and the only one. */
  lemma {:induction false} PiecesIffSplit(text: string, pieces: seq<string>)
    ensures pieces == Pieces(text) <==> IsSplit(pieces) && JoinCommas(pieces) == text
  {
    PiecesAreSplit(text);
    if IsSplit(pieces) && JoinCommas(pieces) == text {
      SplitIsPieces(pieces);
    }
  }

  lemma {:induction false} SplitIsPieces(pieces: seq<string>)
    requires IsSplit(pieces)
    ensures Pieces(JoinCommas(pieces)) == pieces
    ensures ScanOf(JoinCommas(pieces)) == ScanOf(pieces[|pieces| - 1])
    ensures NestingOf(JoinCommas(pieces)) == NestingOf(pieces[|pieces| - 1])
    decreases |pieces|
  {
    hide ScanOf, NestingOf, Pieces, HasNoTopComma;
    OnePieceIff(pieces[|pieces| - 1]);
    if |pieces| > 1 {
      var fewer, last := pieces[..|pieces| - 1], pieces[|pieces| - 1];
      SplitIsPieces(fewer);
      assert IsClosed(JoinCommas(fewer));
      CommaStartsAfresh(JoinCommas(fewer), last);
    }
  }

  // -------------------------------------------------- the matcher and the splitter

  /** On what `FindMatchingParen` delimits, the scan ends unquoted at depth zero, and
      the splitter's test for a missing parenthesis never applies: its count of
      parentheses is the true depth all along. */
  lemma {:induction false} MatchedTextIsBalanced(source: string, openIndex: nat, index: nat)
    requires openIndex < index < |source| && DepthAfter(source, openIndex, index) == 0
    requires forall k | openIndex < k < index :: DepthAfter(source, openIndex, k) > 0
    ensures var text := source[openIndex + 1..index];
            && source[index] == ')' && ScanOf(text) == UNQUOTED && NestingOf(text).parens == 0
            && forall k | 0 <= k <= |text| :: NestingOf(text[..k]).parens == Depth(text[..k])
  {
    var text := source[openIndex + 1..index];
    forall k | 0 <= k <= |text| ensures Depth(text[..k]) >= 0 {
      if k > 0 {
        assert text[..k] == source[openIndex + 1..openIndex + k + 1];
        assert DepthAfter(source, openIndex, openIndex + k) > 0;
      }
    }
    assert text[..|text|] == text;
    OneMore(source, openIndex + 1, index);
    ScanIsUnquoted(text);
    forall k | 0 <= k <= |text| ensures NestingOf(text[..k]).parens == Depth(text[..k]) {
      ClampNeverActs(text, k);
    }
  }

  lemma {:induction false} ClampNeverActs(text: string, n: nat)
    requires n <= |text| && forall k | 0 <= k <= n :: Depth(text[..k]) >= 0
    ensures NestingOf(text[..n]).parens == Depth(text[..n])
  {
    if n > 0 {
      ClampNeverActs(text, n - 1);
      assert text[..n][..n - 1] == text[..n - 1];
      assert Depth(text[..n]) >= 0;
    }
  }

  /** The arguments of the call whose parenthesis opens at `openIndex`, if it closes. */
  method CallArguments(source: string, openIndex: nat) returns (arguments: Option<seq<string>>)
    requires openIndex < |source|
    ensures arguments.None? <==> forall k | openIndex < k < |source| :: DepthAfter(source, openIndex, k) > 0
    ensures arguments.Some? ==>
              exists index | openIndex < index < |source| ::
                && DepthAfter(source, openIndex, index) == 0
                && (forall k | openIndex < k < index :: DepthAfter(source, openIndex, k) > 0)
                && arguments.value == Arguments(source[openIndex + 1..index])
  {
    var closeIndex := FindMatchingParen(source, openIndex);
    if closeIndex == -1 {
      return None;
    }
    var out := SplitTopLevelArguments(source[openIndex + 1..closeIndex]);
    return Some(out);
  }

  /** One argument per piece, trimmed, but for a blank last piece. */
  lemma {:induction false} ArgumentsAreTrimmedPieces(text: string)
    ensures var pieces := Pieces(text);
            && |Arguments(text)| == |pieces| - (if Trim(pieces[|pieces| - 1]) == "" then 1 else 0)
            && forall i | 0 <= i < |Arguments(text)| :: Arguments(text)[i] == Trim(pieces[i])
  {
    TrimAllAt(Pieces(text)[..|Pieces(text)| - 1]);
  }

  lemma {:induction false} TrimAllAt(pieces: seq<string>)
    ensures |TrimAll(pieces)| == |pieces| && forall i | 0 <= i < |pieces| :: TrimAll(pieces)[i] == Trim(pieces[i])
    decreases |pieces|
  {
    if pieces != [] {
      TrimAllAt(pieces[..|pieces| - 1]);
    }
  }
}
