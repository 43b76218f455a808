/** The Swift and Kotlin string literal readers (scripts/native-app-i18n.ts).

    Both skip an interpolation by counting its brackets outside quoted text, decode the
    usual escapes and stop at the closing quote. They are characterised by a printer:
    a literal is read exactly if it is the printing of a list of elements, and then the
    result is what those elements mean. */
module StringLiterals {
  import opened Basics

  datatype Language = Swift | Kotlin

  const QUOTE: char := '"'
  const BACKSLASH: char := '\\'

  function OpenBracket(language: Language): char {
    if language.Swift? then '(' else '{'
  }

  function CloseBracket(language: Language): char {
    if language.Swift? then ')' else '}'
  }

  /** The character before the bracket that opens an interpolation. */
  function Sigil(language: Language): char {
    if language.Swift? then BACKSLASH else '$'
  }

  predicate OpensInterpolation(language: Language, source: string, index: nat) {
    index + 1 < |source| && source[index] == Sigil(language) && source[index + 1] == OpenBracket(language)
  }

  /** What `\c` stands for; an unknown escape is kept as it is. */
  function Unescape(language: Language, c: char): string {
    match c
    case 'n' => "\n"
    case 'r' => "\r"
    case 't' => "\t"
    case _ =>
      if c == QUOTE || c == BACKSLASH || (language.Kotlin? && c == '$') then [c] else [BACKSLASH, c]
  }

  // ------------------------------------------------------------------- the readers

  /** Where the bracket closes, having `depth` brackets open at `index`; a scan that
      meets a closing bracket first has a negative depth. */
  function CloseAt(language: Language, source: string, index: nat, depth: int, quoted: bool,
        escaped: bool): (end: Option<nat>)
    ensures end.Some? ==> index <= end.value < |source|
    decreases |source| - index
  {
    if index >= |source| then None
    else
      var c := source[index];
      if escaped then CloseAt(language, source, index + 1, depth, quoted, false)
      else if quoted && c == BACKSLASH then CloseAt(language, source, index + 1, depth, quoted, true)
      else if c == QUOTE then CloseAt(language, source, index + 1, depth, !quoted, false)
      else if !quoted && c == OpenBracket(language) then CloseAt(language, source, index + 1, depth + 1, quoted, false)
      else if !quoted && c == CloseBracket(language) then
        if depth == 1 then Some(index) else CloseAt(language, source, index + 1, depth - 1, quoted, false)
      else CloseAt(language, source, index + 1, depth, quoted, false)
  }

  datatype Literal = Literal(end: nat, value: string)

  function Prepend(text: string, literal: Option<Literal>): Option<Literal> {
    if literal.None? then None else Some(Literal(literal.value.end, text + literal.value.value))
  }

  /** What the reader finds from `index` on, past the opening quote. */
  function ReadBody(language: Language, source: string, index: nat): (literal: Option<Literal>)
    ensures literal.Some? ==> index < literal.value.end <= |source|
    decreases |source| - index
  {
    if index >= |source| then None
    else if OpensInterpolation(language, source, index) then
      var end := CloseAt(language, source, index + 2, 1, false, false);
      if end.None? then None
      else Prepend(source[index..end.value + 1], ReadBody(language, source, end.value + 1))
    else if source[index] == BACKSLASH then
      if index + 1 >= |source| then None
      else Prepend(Unescape(language, source[index + 1]), ReadBody(language, source, index + 2))
    else if source[index] == QUOTE then Some(Literal(index + 1, ""))
    else Prepend([source[index]], ReadBody(language, source, index + 1))
  }

  const TRIPLE_QUOTE := [QUOTE, QUOTE, QUOTE]

  function ReadLiteral(language: Language, source: string, openingQuote: nat): (literal: Option<Literal>)
    ensures literal.Some? ==> openingQuote + 1 < literal.value.end <= |source|
  {
    if openingQuote >= |source| || source[openingQuote] != QUOTE
        || StartsWithAt(source, openingQuote, TRIPLE_QUOTE) then None
    else ReadBody(language, source, openingQuote + 1)
  }

  /** The inner loop of both readers. */
  method FindInterpolationEnd(language: Language, source: string, start: nat) returns (found: Option<nat>)
    ensures found == CloseAt(language, source, start, 1, false, false)
  {
    var depth, quoted, escaped, end := 1, false, false, start;
    while end < |source|
      invariant depth >= 1
      invariant CloseAt(language, source, start, 1, false, false)
                == CloseAt(language, source, end, depth, quoted, escaped)
      invariant escaped ==> quoted
      decreases |source| - end
    {
      var c := source[end];
      if escaped {
        escaped := false;
      } else if quoted && c == BACKSLASH {
        escaped := true;
      } else if c == QUOTE {
        quoted := !quoted;
      } else if !quoted && c == OpenBracket(language) {
        depth := depth + 1;
      } else if !quoted && c == CloseBracket(language) {
        depth := depth - 1;
        if depth == 0 {
          return Some(end);
        }
      }
      end := end + 1;
    }
    return None;
  }

  lemma PrependTwice(a: string, b: string, literal: Option<Literal>)
    ensures Prepend(a, Prepend(b, literal)) == Prepend(a + b, literal)
  {
    if literal.Some? {
      assert a + (b + literal.value.value) == a + b + literal.value.value;
    }
  }

  lemma PrependNothing(literal: Option<Literal>)
    ensures Prepend("", literal) == literal
  {
    if literal.Some? {
      assert "" + literal.value.value == literal.value.value;
    }
  }

  lemma PrependEnd(raw: string, end: nat)
    ensures Prepend(raw, Some(Literal(end, ""))) == Some(Literal(end, raw))
    ensures Prepend(raw, None) == None
  {
    assert raw + "" == raw;
  }

  method AppendUnescaped(language: Language, raw: string, next: char) returns (longer: string)
    ensures longer == raw + Unescape(language, next)
  {
    if next == 'n' {
      longer := raw + "\n";
    } else if next == 'r' {
      longer := raw + "\r";
    } else if next == 't' {
      longer := raw + "\t";
    } else if next == QUOTE || next == BACKSLASH || (language.Kotlin? && next == '$') {
      longer := raw + [next];
    } else {
      longer := raw + [BACKSLASH, next];
    }
  }

  method ReadSwiftStringLiteral(source: string, openingQuote: nat) returns (literal: Option<Literal>)
    ensures literal == ReadLiteral(Swift, source, openingQuote)
  {
    hide CloseAt, Unescape, Prepend;
    if openingQuote >= |source| || source[openingQuote] != QUOTE || StartsWithAt(source, openingQuote, TRIPLE_QUOTE) {
      return None;
    }
    var raw, index := "", openingQuote + 1;
    ghost var whole := ReadBody(Swift, source, index);
    PrependNothing(whole);
    PrependEnd("", 0);
    while index < |source|
      invariant whole == Prepend(raw, ReadBody(Swift, source, index))
      decreases |source| - index
    {
      PrependEnd(raw, index + 1);
      var character := source[index];
      if character == BACKSLASH {
        if index + 1 >= |source| {
          return None;
        }
        var next := source[index + 1];
        if next == '(' {
          var end := FindInterpolationEnd(Swift, source, index + 2);
          if end.None? {
            return None;
          }
          PrependTwice(raw, source[index..end.value + 1], ReadBody(Swift, source, end.value + 1));
          raw := raw + source[index..end.value + 1];
          index := end.value + 1;
          continue;
        }
        PrependTwice(raw, Unescape(Swift, next), ReadBody(Swift, source, index + 2));
        raw := AppendUnescaped(Swift, raw, next);
        index := index + 2;
        continue;
      }
      if character == QUOTE {
        return Some(Literal(index + 1, raw));
      }
      PrependTwice(raw, [character], ReadBody(Swift, source, index + 1));
      raw := raw + [character];
      index := index + 1;
    }
    PrependEnd(raw, 0);
    return None;
  }

  method ReadKotlinStringLiteral(source: string, openingQuote: nat) returns (literal: Option<Literal>)
    ensures literal == ReadLiteral(Kotlin, source, openingQuote)
  {
    hide CloseAt, Unescape, Prepend;
    if openingQuote >= |source| || source[openingQuote] != QUOTE || StartsWithAt(source, openingQuote, TRIPLE_QUOTE) {
      return None;
    }
    var raw, index := "", openingQuote + 1;
    ghost var whole := ReadBody(Kotlin, source, index);
    PrependNothing(whole);
    PrependEnd("", 0);
    while index < |source|
      invariant whole == Prepend(raw, ReadBody(Kotlin, source, index))
      decreases |source| - index
    {
      PrependEnd(raw, index + 1);
      var character := source[index];
      if character == '$' && index + 1 < |source| && source[index + 1] == '{' {
        var end := FindInterpolationEnd(Kotlin, source, index + 2);
        if end.None? {
          return None;
        }
        PrependTwice(raw, source[index..end.value + 1], ReadBody(Kotlin, source, end.value + 1));
        raw := raw + source[index..end.value + 1];
        index := end.value + 1;
        continue;
      }
      if character == BACKSLASH {
        if index + 1 >= |source| {
          return None;
        }
        var next := source[index + 1];
        PrependTwice(raw, Unescape(Kotlin, next), ReadBody(Kotlin, source, index + 2));
        raw := AppendUnescaped(Kotlin, raw, next);
        index := index + 2;
        continue;
      }
      if character == QUOTE {
        return Some(Literal(index + 1, raw));
      }
      PrependTwice(raw, [character], ReadBody(Kotlin, source, index + 1));
      raw := raw + [character];
      index := index + 1;
    }
    PrependEnd(raw, 0);
    return None;
  }

  // ------------------------------------------------------------------- the printer

  /** A character of a quoted text inside an interpolation. */
  datatype QuotedChar = Bare(c: char) | Escaped(c: char)

  /** The body of an interpolation: a list of plain characters, bracketed groups and
      quoted texts. */
  datatype Body =
    | Nil
    | Plain(c: char, rest: Body)
    | Group(inner: Body, rest: Body)
    | Quoted(text: seq<QuotedChar>, rest: Body)

  predicate LegalQuoted(text: seq<QuotedChar>) {
    forall i | 0 <= i < |text| :: text[i].Bare? ==> text[i].c != QUOTE && text[i].c != BACKSLASH
  }

  predicate LegalBody(language: Language, body: Body) {
    match body
    case Nil => true
    case Plain(c, rest) =>
      c != QUOTE && c != OpenBracket(language) && c != CloseBracket(language) && LegalBody(language, rest)
    case Group(inner, rest) => LegalBody(language, inner) && LegalBody(language, rest)
    case Quoted(text, rest) => LegalQuoted(text) && LegalBody(language, rest)
  }

  function PrintQuoted(text: seq<QuotedChar>): string {
    if text == [] then ""
    else (if text[0].Bare? then [text[0].c] else [BACKSLASH, text[0].c]) + PrintQuoted(text[1..])
  }

  function PrintBody(language: Language, body: Body): string {
    match body
    case Nil => ""
    case Plain(c, rest) => [c] + PrintBody(language, rest)
    case Group(inner, rest) =>
      [OpenBracket(language)] + (PrintBody(language, inner) + ([CloseBracket(language)] + PrintBody(language, rest)))
    case Quoted(text, rest) => [QUOTE] + ((PrintQuoted(text) + [QUOTE]) + PrintBody(language, rest))
  }

  /** What a literal is made of between its quotes. */
  datatype Element = Raw(c: char) | Escape(c: char) | Interpolation(body: Body)

  predicate LegalElement(language: Language, element: Element) {
    match element
    case Raw(c) => c != QUOTE && c != BACKSLASH
    case Escape(c) => language.Swift? ==> c != '('
    case Interpolation(body) => LegalBody(language, body)
  }

  /** A bare `$` must not run into a bare `{` in Kotlin. */
  predicate Legal(language: Language, elements: seq<Element>) {
    && (forall i | 0 <= i < |elements| :: LegalElement(language, elements[i]))
    && (language.Kotlin? ==> forall i, j | 0 <= i < |elements| && 0 <= j < |elements| && j == i + 1 ::
          !(elements[i] == Raw('$') && elements[j] == Raw('{')))
  }

  function PrintElement(language: Language, element: Element): string {
    match element
    case Raw(c) => [c]
    case Escape(c) => [BACKSLASH, c]
    case Interpolation(body) =>
      [Sigil(language)] + ([OpenBracket(language)] + (PrintBody(language, body) + [CloseBracket(language)]))
  }

  function Print(language: Language, elements: seq<Element>): string {
    if elements == [] then "" else PrintElement(language, elements[0]) + Print(language, elements[1..])
  }

  function MeaningOf(language: Language, element: Element): string {
    if element.Escape? then Unescape(language, element.c) else PrintElement(language, element)
  }

  /** What a literal stands for: text decoded, interpolations verbatim. */
  function Meaning(language: Language, elements: seq<Element>): string {
    if elements == [] then "" else MeaningOf(language, elements[0]) + Meaning(language, elements[1..])
  }

  // -------------------------------------------------- what is printed is read back

  lemma Associative(a: string, b: string, c: string)
    ensures (a + b) + c == a + (b + c)
  {
  }

  lemma PrefixFirst(source: string, index: nat, c: char, rest: string)
    requires StartsWithAt(source, index, [c] + rest)
    ensures index < |source| && source[index] == c && StartsWithAt(source, index + 1, rest)
  {
    var whole := source[index..index + |[c] + rest|];
    assert whole[0] == source[index] && whole[1..] == rest;
    assert source[index + 1..index + 1 + |rest|] == whole[1..];
  }

  lemma PrefixSplit(source: string, index: nat, first: string, rest: string)
    requires StartsWithAt(source, index, first + rest)
    ensures StartsWithAt(source, index, first) && StartsWithAt(source, index + |first|, rest)
  {
    var whole := source[index..index + |first + rest|];
    assert whole[..|first|] == first && whole[|first|..] == rest;
    assert source[index..index + |first|] == whole[..|first|];
    assert source[index + |first|..index + |first| + |rest|] == whole[|first|..];
  }

  lemma {:induction false} CloseAtSkipsQuoted(language: Language, source: string, index: nat, depth: nat,
        text: seq<QuotedChar>)
    requires depth >= 1 && LegalQuoted(text) && StartsWithAt(source, index, PrintQuoted(text) + [QUOTE])
    ensures CloseAt(language, source, index, depth, true, false)
         == CloseAt(language, source, index + |PrintQuoted(text)| + 1, depth, false, false)
    decreases |text|
  {
    if text == [] {
      PrefixFirst(source, index, QUOTE, "");
      assert PrintQuoted(text) + [QUOTE] == [QUOTE] + "";
    } else {
      var c, rest := text[0].c, PrintQuoted(text[1..]) + [QUOTE];
      if text[0].Bare? {
        assert PrintQuoted(text) + [QUOTE] == [c] + rest;
        PrefixFirst(source, index, c, rest);
        CloseAtSkipsQuoted(language, source, index + 1, depth, text[1..]);
      } else {
        assert PrintQuoted(text) + [QUOTE] == [BACKSLASH] + ([c] + rest);
        PrefixFirst(source, index, BACKSLASH, [c] + rest);
        PrefixFirst(source, index + 1, c, rest);
        CloseAtSkipsQuoted(language, source, index + 2, depth, text[1..]);
      }
    }
  }

  /** The scan passes over a printed body and is back at the depth it had. */
  lemma {:induction false} CloseAtSkipsBody(language: Language, source: string, index: nat, depth: nat, body: Body)
    requires depth >= 1 && LegalBody(language, body) && StartsWithAt(source, index, PrintBody(language, body))
    ensures CloseAt(language, source, index, depth, false, false)
         == CloseAt(language, source, index + |PrintBody(language, body)|, depth, false, false)
    decreases body, 1
  {
    hide StartsWithAt, PrintQuoted, LegalQuoted;
    match body
    case Nil =>
    case Plain(c, rest) =>
      PrefixFirst(source, index, c, PrintBody(language, rest));
      CloseAtSkipsBody(language, source, index + 1, depth, rest);
    case Group(inner, rest) =>
      CloseAtSkipsGroup(language, source, index, depth, body);
    case Quoted(text, rest) =>
      var printed := PrintQuoted(text) + [QUOTE];
      PrefixFirst(source, index, QUOTE, printed + PrintBody(language, rest));
      PrefixSplit(source, index + 1, printed, PrintBody(language, rest));
      CloseAtSkipsQuoted(language, source, index + 1, depth, text);
      CloseAtSkipsBody(language, source, index + 1 + |printed|, depth, rest);
  }

  lemma {:induction false} CloseAtSkipsGroup(language: Language, source: string, index: nat, depth: nat, group: Body)
    requires depth >= 1 && group.Group? && LegalBody(language, group)
    requires StartsWithAt(source, index, PrintBody(language, group))
    ensures CloseAt(language, source, index, depth, false, false)
         == CloseAt(language, source, index + |PrintBody(language, group)|, depth, false, false)
    decreases group, 0
  {
    hide StartsWithAt, LegalQuoted, PrintQuoted;
    var rest := PrintBody(language, group.rest);
    var printed, tail := PrintBody(language, group.inner), [CloseBracket(language)] + rest;
    PrefixFirst(source, index, OpenBracket(language), printed + tail);
    PrefixSplit(source, index + 1, printed, tail);
    PrefixFirst(source, index + 1 + |printed|, CloseBracket(language), rest);
    CloseAtSkipsBody(language, source, index + 1, depth + 1, group.inner);
    CloseAtSkipsBody(language, source, index + 1 + |printed| + 1, depth, group.rest);
  }

  lemma {:induction false} ReadsInterpolation(language: Language, source: string, index: nat, body: Body)
    requires LegalBody(language, body) && StartsWithAt(source, index, PrintElement(language, Interpolation(body)))
    ensures var printed := PrintElement(language, Interpolation(body));
            && OpensInterpolation(language, source, index)
            && CloseAt(language, source, index + 2, 1, false, false) == Some(index + |printed| - 1)
            && index + |printed| <= |source| && source[index..index + |printed|] == printed
  {
    var printed, inner, close := PrintElement(language, Interpolation(body)), PrintBody(language, body),
        [CloseBracket(language)];
    assert source[index..index + |printed|] == printed;
    hide StartsWithAt;
    PrefixFirst(source, index, Sigil(language), [OpenBracket(language)] + (inner + close));
    PrefixFirst(source, index + 1, OpenBracket(language), inner + close);
    PrefixSplit(source, index + 2, inner, close);
    PrefixFirst(source, index + 2 + |inner|, CloseBracket(language), "") by { assert close == close + ""; }
    CloseAtSkipsBody(language, source, index + 2, 1, body);
  }

  lemma {:induction false} ReadsWholeInterpolation(language: Language, source: string, index: nat, body: Body)
    requires LegalBody(language, body) && StartsWithAt(source, index, PrintElement(language, Interpolation(body)))
    ensures var printed := PrintElement(language, Interpolation(body));
            ReadBody(language, source, index) == Prepend(printed, ReadBody(language, source, index + |printed|))
  {
    hide StartsWithAt, Prepend, CloseAt, PrintElement, OpensInterpolation;
    ReadsInterpolation(language, source, index, body);
  }

  /** One printed element is read as its meaning. `after` is what follows it. */
  lemma {:induction false} ReadsElement(language: Language, source: string, index: nat, element: Element, after: string)
    requires LegalElement(language, element) && StartsWithAt(source, index, PrintElement(language, element))
    requires StartsWithAt(source, index + |PrintElement(language, element)|, after) && after != ""
    requires language.Kotlin? && element == Raw('$') ==> after[0] != '{'
    ensures ReadBody(language, source, index)
         == Prepend(MeaningOf(language, element), ReadBody(language, source, index + |PrintElement(language, element)|))
  {
    hide ReadBody, StartsWithAt, Prepend, Unescape, PrintBody, LegalBody;
    match element
    case Raw(c) => ReadsRaw(language, source, index, c, after);
    case Escape(c) => ReadsEscape(language, source, index, c);
    case Interpolation(body) => ReadsWholeInterpolation(language, source, index, body);
  }

  lemma {:induction false} ReadsRaw(language: Language, source: string, index: nat, c: char, after: string)
    requires LegalElement(language, Raw(c)) && StartsWithAt(source, index, [c])
    requires StartsWithAt(source, index + 1, after) && after != ""
    requires language.Kotlin? && c == '$' ==> after[0] != '{'
    ensures ReadBody(language, source, index) == Prepend([c], ReadBody(language, source, index + 1))
  {
    assert source[index] == source[index..index + 1][0] == c;
    assert source[index + 1] == source[index + 1..index + 1 + |after|][0] == after[0];
    assert !OpensInterpolation(language, source, index);
    hide StartsWithAt, Prepend, OpensInterpolation;
  }

  lemma {:induction false} ReadsEscape(language: Language, source: string, index: nat, c: char)
    requires LegalElement(language, Escape(c)) && StartsWithAt(source, index, [BACKSLASH, c])
    ensures ReadBody(language, source, index) == Prepend(Unescape(language, c), ReadBody(language, source, index + 2))
  {
    assert source[index] == source[index..index + 2][0] == BACKSLASH;
    assert source[index + 1] == source[index..index + 2][1] == c;
    assert !OpensInterpolation(language, source, index);
    hide StartsWithAt, Prepend, OpensInterpolation;
  }

  lemma {:induction false} ReadsElements(language: Language, source: string, index: nat, elements: seq<Element>)
    requires Legal(language, elements) && StartsWithAt(source, index, Print(language, elements) + [QUOTE])
    ensures ReadBody(language, source, index)
         == Some(Literal(index + |Print(language, elements)| + 1, Meaning(language, elements)))
    decreases |elements|
  {
    hide *;
    if elements == [] {
      ReadsClosingQuote(language, source, index);
    } else {
      var first, rest := elements[0], elements[1..];
      var printed, tail := PrintElement(language, first), Print(language, rest);
      FirstElement(language, elements);
      FirstPrinted(language, elements);
      Associative(printed, tail, [QUOTE]);
      PrefixSplit(source, index, printed, tail + [QUOTE]);
      ReadsElement(language, source, index, first, tail + [QUOTE]);
      ReadsElements(language, source, index + |printed|, rest);
      PrependLiteral(MeaningOf(language, first), index + |printed| + |tail| + 1, Meaning(language, rest));
    }
  }

  lemma {:induction false} FirstElement(language: Language, elements: seq<Element>)
    requires elements != []
    ensures Print(language, elements) == PrintElement(language, elements[0]) + Print(language, elements[1..])
    ensures Meaning(language, elements) == MeaningOf(language, elements[0]) + Meaning(language, elements[1..])
    ensures Legal(language, elements) ==> LegalElement(language, elements[0]) && Legal(language, elements[1..])
  {
  }

  lemma {:induction false} ReadsClosingQuote(language: Language, source: string, index: nat)
    requires StartsWithAt(source, index, Print(language, []) + [QUOTE])
    ensures ReadBody(language, source, index)
         == Some(Literal(index + |Print(language, [])| + 1, Meaning(language, [])))
  {
    assert Print(language, []) + [QUOTE] == [QUOTE] + "";
    PrefixFirst(source, index, QUOTE, "");
  }

  lemma PrependLiteral(text: string, end: nat, value: string)
    ensures Prepend(text, Some(Literal(end, value))) == Some(Literal(end, text + value))
  {
  }

  /** After a bare `$` no bracket opens. */
  lemma {:induction false} FirstPrinted(language: Language, elements: seq<Element>)
    requires elements != [] && Legal(language, elements)
    ensures var after := Print(language, elements[1..]) + [QUOTE];
            after != "" && (language.Kotlin? && elements[0] == Raw('$') ==> after[0] != '{')
  {
    if |elements| > 1 {
      assert elements[1..][0] == elements[1];
      assert PrintElement(language, elements[1]) != "";
    }
  }

  // -------------------------------------------- whatever is read has been printed

  lemma SliceFirst(source: string, index: nat, end: nat)
    requires index < end <= |source|
    ensures source[index..end] == [source[index]] + source[index + 1..end]
  {
  }

  lemma SliceSplit(source: string, index: nat, middle: nat, end: nat)
    requires index <= middle <= end <= |source|
    ensures source[index..end] == source[index..middle] + source[middle..end]
  {
  }

  /** The quoted text at `index`, which ends just before `next`. */
  lemma {:induction false} QuotedTextAt(language: Language, source: string, index: nat, depth: nat)
    returns (text: seq<QuotedChar>, next: nat)
    requires depth >= 1 && CloseAt(language, source, index, depth, true, false).Some?
    ensures LegalQuoted(text) && index < next <= |source| && source[index..next] == PrintQuoted(text) + [QUOTE]
    ensures CloseAt(language, source, next, depth, false, false) == CloseAt(language, source, index, depth, true, false)
    decreases |source| - index
  {
    var c := source[index];
    if c == QUOTE {
      text, next := [], index + 1;
      assert source[index..next] == [QUOTE];
    } else {
      var more, from := [], if c == BACKSLASH then index + 2 else index + 1;
      more, next := QuotedTextAt(language, source, from, depth);
      text := [if c == BACKSLASH then Escaped(source[index + 1]) else Bare(c)] + more;
      assert text[1..] == more && text[0] == if c == BACKSLASH then Escaped(source[index + 1]) else Bare(c);
      QuotedStep(source, index, from, next, text, more);
    }
  }

  lemma {:induction false} QuotedStep(source: string, index: nat, from: nat, next: nat, text: seq<QuotedChar>,
        more: seq<QuotedChar>)
    requires text != [] && text[1..] == more && index < from <= next <= |source|
    requires source[index..from] == if text[0].Bare? then [text[0].c] else [BACKSLASH, text[0].c]
    requires source[from..next] == PrintQuoted(more) + [QUOTE]
    ensures source[index..next] == PrintQuoted(text) + [QUOTE]
  {
    SliceSplit(source, index, from, next);
  }

  /** Bodies separated by closing brackets: what lies before the bracket that closes
      the outermost of several open ones. */
  function PrintStack(language: Language, bodies: seq<Body>): string {
    if bodies == [] then ""
    else if |bodies| == 1 then PrintBody(language, bodies[0])
    else PrintBody(language, bodies[0]) + ([CloseBracket(language)] + PrintStack(language, bodies[1..]))
  }

  predicate LegalStack(language: Language, bodies: seq<Body>) {
    forall i | 0 <= i < |bodies| :: LegalBody(language, bodies[i])
  }

  lemma {:induction false} PrintStackFirst(language: Language, prefix: string, body: Body, bodies: seq<Body>)
    requires bodies != [] && PrintBody(language, body) == prefix + PrintBody(language, bodies[0])
    ensures PrintStack(language, [body] + bodies[1..]) == prefix + PrintStack(language, bodies)
  {
    var changed := [body] + bodies[1..];
    assert changed[1..] == bodies[1..];
    if |bodies| > 1 {
      Associative(prefix, PrintBody(language, bodies[0]), [CloseBracket(language)] + PrintStack(language, bodies[1..]));
    }
  }

  lemma {:induction false} PrintStackGroup(language: Language, bodies: seq<Body>)
    requires |bodies| >= 2
    ensures PrintStack(language, [Group(bodies[0], bodies[1])] + bodies[2..])
         == [OpenBracket(language)] + PrintStack(language, bodies)
  {
    var changed := [Group(bodies[0], bodies[1])] + bodies[2..];
    var inner, rest, close := PrintBody(language, bodies[0]), PrintBody(language, bodies[1]), [CloseBracket(language)];
    assert changed[1..] == bodies[2..] && bodies[1..][0] == bodies[1] && bodies[1..][1..] == bodies[2..];
    if |bodies| > 2 {
      var tail := close + PrintStack(language, bodies[2..]);
      assert PrintStack(language, bodies[1..]) == rest + tail;
      Regroup([OpenBracket(language)], inner, close, rest, tail);
    }
  }

  lemma Regroup(a: string, b: string, c: string, d: string, e: string)
    ensures (a + (b + (c + d))) + e == a + (b + (c + (d + e)))
  {
    Associative(a, b + (c + d), e);
    Associative(b, c + d, e);
    Associative(c, d, e);
  }

  lemma {:induction false} BodiesAt(language: Language, source: string, index: nat, depth: nat)
    returns (bodies: seq<Body>)
    requires depth >= 1 && CloseAt(language, source, index, depth, false, false).Some?
    ensures var end := CloseAt(language, source, index, depth, false, false).value;
            && |bodies| == depth && LegalStack(language, bodies)
            && source[index..end] == PrintStack(language, bodies) && source[end] == CloseBracket(language)
    decreases |source| - index
  {
    var end := CloseAt(language, source, index, depth, false, false).value;
    var c := source[index];
    if c == QUOTE {
      var text, next := QuotedTextAt(language, source, index + 1, depth);
      var more := BodiesAt(language, source, next, depth);
      bodies := [Quoted(text, more[0])] + more[1..];
      QuotedFirst(language, source, index, next, end, text, more);
    } else if c == OpenBracket(language) {
      var more := BodiesAt(language, source, index + 1, depth + 1);
      bodies := [Group(more[0], more[1])] + more[2..];
      PrintStackGroup(language, more);
      SliceFirst(source, index, end);
    } else if c == CloseBracket(language) {
      if depth == 1 {
        bodies := [Nil];
      } else {
        var more := BodiesAt(language, source, index + 1, depth - 1);
        bodies := [Nil] + more;
        NilFirst(language, more);
        SliceFirst(source, index, end);
      }
    } else {
      var more := BodiesAt(language, source, index + 1, depth);
      bodies := [Plain(c, more[0])] + more[1..];
      PrintStackFirst(language, [c], Plain(c, more[0]), more);
      SliceFirst(source, index, end);
    }
  }

  lemma {:induction false} NilFirst(language: Language, bodies: seq<Body>)
    requires bodies != []
    ensures PrintStack(language, [Nil] + bodies) == [CloseBracket(language)] + PrintStack(language, bodies)
  {
    assert ([Nil] + bodies)[1..] == bodies;
  }

  lemma {:induction false} QuotedFirst(language: Language, source: string, index: nat, next: nat, end: nat,
                                       text: seq<QuotedChar>, bodies: seq<Body>)
    requires index + 1 < next <= end <= |source| && source[index] == QUOTE && bodies != []
    requires source[index + 1..next] == PrintQuoted(text) + [QUOTE] && source[next..end] == PrintStack(language, bodies)
    ensures source[index..end] == PrintStack(language, [Quoted(text, bodies[0])] + bodies[1..])
  {
    var printed := PrintQuoted(text) + [QUOTE];
    Associative([QUOTE], printed, PrintBody(language, bodies[0]));
    PrintStackFirst(language, [QUOTE] + printed, Quoted(text, bodies[0]), bodies);
    SliceFirst(source, index, end);
    SliceSplit(source, index + 1, next, end);
    Associative([QUOTE], printed, PrintStack(language, bodies));
  }

  /** The interpolation that opens at `index`. */
  lemma {:induction false} InterpolationAt(language: Language, source: string, index: nat) returns (element: Element)
    requires OpensInterpolation(language, source, index) && CloseAt(language, source, index + 2, 1, false, false).Some?
    ensures LegalElement(language, element) && element.Interpolation?
    ensures source[index..CloseAt(language, source, index + 2, 1, false, false).value + 1]
              == PrintElement(language, element)
  {
    var end := CloseAt(language, source, index + 2, 1, false, false).value;
    var bodies := BodiesAt(language, source, index + 2, 1);
    element := Interpolation(bodies[0]);
    hide CloseAt, LegalBody, PrintBody;
    SliceFirst(source, index, end + 1);
    SliceFirst(source, index + 1, end + 1);
    SliceSplit(source, index + 2, end, end + 1);
    assert source[end..end + 1] == [CloseBracket(language)];
  }

  /** The elements of the literal whose body is read at `index`. */
  lemma {:induction false} ElementsAt(language: Language, source: string, index: nat) returns (elements: seq<Element>)
    requires ReadBody(language, source, index).Some?
    ensures var literal := ReadBody(language, source, index).value;
            && Legal(language, elements) && literal.value == Meaning(language, elements)
            && source[index..literal.end - 1] == Print(language, elements) && source[literal.end - 1] == QUOTE
    decreases |source| - index
  {
    hide *;
    var end := ReadBody(language, source, index).value.end;
    if index < |source| && !OpensInterpolation(language, source, index) && source[index] == QUOTE {
      elements := [];
      ClosingQuoteAt(language, source, index);
    } else {
      WithinSource(language, source, index);
      var first, next := ElementAt(language, source, index);
      PrependedEnd(MeaningOf(language, first), ReadBody(language, source, next));
      var more := ElementsAt(language, source, next);
      elements := [first] + more;
      JoinElements(language, source, index, next, end - 1, first, more);
    }
  }

  lemma {:induction false} WithinSource(language: Language, source: string, index: nat)
    requires ReadBody(language, source, index).Some?
    ensures index < |source|
  {
  }

  lemma {:induction false} ClosingQuoteAt(language: Language, source: string, index: nat)
    requires index < |source| && !OpensInterpolation(language, source, index) && source[index] == QUOTE
    ensures ReadBody(language, source, index) == Some(Literal(index + 1, Meaning(language, [])))
    ensures source[index..index] == Print(language, []) && Legal(language, [])
  {
  }

  lemma {:induction false} PrependedEnd(text: string, literal: Option<Literal>)
    requires Prepend(text, literal).Some?
    ensures literal.Some? && Prepend(text, literal).value.end == literal.value.end
    ensures Prepend(text, literal).value.value == text + literal.value.value
  {
  }

  lemma {:induction false} ElementAt(language: Language, source: string, index: nat)
    returns (element: Element, next: nat)
    requires ReadBody(language, source, index).Some? && index < |source|
    requires OpensInterpolation(language, source, index) || source[index] != QUOTE
    ensures index < next < |source| && LegalElement(language, element)
    ensures source[index..next] == PrintElement(language, element)
    ensures ReadBody(language, source, index) == Prepend(MeaningOf(language, element), ReadBody(language, source, next))
    ensures language.Kotlin? && element == Raw('$') ==> source[next] != '{'
  {
    hide *;
    BodyGoesOn(language, source, index);
    if OpensInterpolation(language, source, index) {
      next := CloseAt(language, source, index + 2, 1, false, false).value + 1;
      element := InterpolationAt(language, source, index);
      VerbatimMeaning(language, element);
    } else if source[index] == BACKSLASH {
      element, next := Escape(source[index + 1]), index + 2;
      EscapeAt(language, source, index);
    } else {
      element, next := Raw(source[index]), index + 1;
      RawAt(language, source, index);
    }
    PrependNeeds(MeaningOf(language, element), ReadBody(language, source, next));
    WithinSource(language, source, next);
  }

  lemma PrependNeeds(text: string, literal: Option<Literal>)
    ensures Prepend(text, literal).Some? ==> literal.Some?
  {
  }

  /** One step of the reader that does not end the literal. */
  lemma {:induction false} BodyGoesOn(language: Language, source: string, index: nat)
    requires ReadBody(language, source, index).Some? && index < |source|
    requires OpensInterpolation(language, source, index) || source[index] != QUOTE
    ensures if OpensInterpolation(language, source, index) then
              var end := CloseAt(language, source, index + 2, 1, false, false);
              && end.Some? && end.value < |source| && index < end.value
              && ReadBody(language, source, index)
                 == Prepend(source[index..end.value + 1], ReadBody(language, source, end.value + 1))
            else if source[index] == BACKSLASH then
              && index + 1 < |source|
              && ReadBody(language, source, index)
                 == Prepend(Unescape(language, source[index + 1]), ReadBody(language, source, index + 2))
            else ReadBody(language, source, index) == Prepend([source[index]], ReadBody(language, source, index + 1))
  {
    hide CloseAt, Prepend, Unescape, OpensInterpolation;
  }

  lemma {:induction false} VerbatimMeaning(language: Language, element: Element)
    requires element.Interpolation?
    ensures MeaningOf(language, element) == PrintElement(language, element) && element != Raw('$')
  {
  }

  lemma {:induction false} EscapeAt(language: Language, source: string, index: nat)
    requires index + 1 < |source| && source[index] == BACKSLASH && !OpensInterpolation(language, source, index)
    ensures var element := Escape(source[index + 1]);
            && LegalElement(language, element) && source[index..index + 2] == PrintElement(language, element)
            && MeaningOf(language, element) == Unescape(language, source[index + 1])
  {
    assert source[index..index + 2] == [BACKSLASH, source[index + 1]];
  }

  lemma {:induction false} RawAt(language: Language, source: string, index: nat)
    requires index < |source| && source[index] != BACKSLASH && source[index] != QUOTE
    requires !OpensInterpolation(language, source, index)
    ensures var element := Raw(source[index]);
            && LegalElement(language, element) && source[index..index + 1] == PrintElement(language, element)
            && MeaningOf(language, element) == [source[index]]
            && (language.Kotlin? && element == Raw('$') && index + 1 < |source| ==> source[index + 1] != '{')
  {
  }

  lemma {:induction false} JoinElements(language: Language, source: string, index: nat, next: nat, end: nat,
                                        first: Element, more: seq<Element>)
    requires index < next <= end < |source| && source[end] == QUOTE
    requires source[index..next] == PrintElement(language, first) && source[next..end] == Print(language, more)
    requires LegalElement(language, first) && Legal(language, more)
    requires language.Kotlin? && first == Raw('$') ==> source[next] != '{'
    ensures Legal(language, [first] + more)
    ensures source[index..end] == Print(language, [first] + more)
    ensures Meaning(language, [first] + more) == MeaningOf(language, first) + Meaning(language, more)
  {
    var elements := [first] + more;
    assert elements[1..] == more;
    SliceSplit(source, index, next, end);
    if more != [] && more[0] == Raw('{') {
      assert Print(language, more)[0] == '{';
      assert source[next] == source[next..end][0];
    }
  }

  // ------------------------------------------------------------------ main results

  /** The source has, at the opening quote, the printing of these elements; and it is
      not the start of a triple quote, which an empty literal and a quote would be. */
  predicate IsPrintedAt(language: Language, source: string, openingQuote: nat, elements: seq<Element>) {
    && Legal(language, elements)
    && StartsWithAt(source, openingQuote, [QUOTE] + (Print(language, elements) + [QUOTE]))
    && (elements == [] ==> !StartsWithAt(source, openingQuote, TRIPLE_QUOTE))
  }

  /** Printing, then reading: the text decoded, the interpolations verbatim, and the
      end just past the closing quote. */
  lemma {:induction false} PrintedIsRead(language: Language, source: string, openingQuote: nat, elements: seq<Element>)
    requires IsPrintedAt(language, source, openingQuote, elements)
    ensures ReadLiteral(language, source, openingQuote)
         == Some(Literal(openingQuote + |Print(language, elements)| + 2, Meaning(language, elements)))
  {
    hide StartsWithAt, Legal, Print, Meaning, ReadLiteral, ReadBody;
    assert Legal(language, elements)
        && StartsWithAt(source, openingQuote, [QUOTE] + (Print(language, elements) + [QUOTE]));
    assert elements == [] ==> !StartsWithAt(source, openingQuote, TRIPLE_QUOTE);
    hide *;
    var body := Print(language, elements) + [QUOTE];
    PrefixFirst(source, openingQuote, QUOTE, body);
    ReadsElements(language, source, openingQuote + 1, elements);
    if elements != [] {
      FirstIsNoQuote(language, elements);
      SecondIsNotQuote(source, openingQuote, body);
    }
    BodyIsLiteral(language, source, openingQuote);
  }

  lemma {:induction false} SecondIsNotQuote(source: string, openingQuote: nat, body: string)
    requires body != "" && body[0] != QUOTE && StartsWithAt(source, openingQuote + 1, body)
    ensures !StartsWithAt(source, openingQuote, TRIPLE_QUOTE)
  {
    hide *;
    assert body == [body[0]] + body[1..];
    PrefixFirst(source, openingQuote + 1, body[0], body[1..]);
    NotTriple(source, openingQuote);
  }

  lemma {:induction false} BodyIsLiteral(language: Language, source: string, openingQuote: nat)
    requires openingQuote < |source| && source[openingQuote] == QUOTE
              && !StartsWithAt(source, openingQuote, TRIPLE_QUOTE)
    ensures ReadLiteral(language, source, openingQuote) == ReadBody(language, source, openingQuote + 1)
  {
  }

  lemma {:induction false} FirstIsNoQuote(language: Language, elements: seq<Element>)
    requires elements != [] && Legal(language, elements)
    ensures Print(language, elements) != "" && Print(language, elements)[0] != QUOTE
  {
    assert LegalElement(language, elements[0]);
    assert PrintElement(language, elements[0]) != "" && PrintElement(language, elements[0])[0] != QUOTE;
  }

  lemma {:induction false} NotTriple(source: string, index: nat)
    requires index + 1 < |source| && source[index + 1] != QUOTE
    ensures !StartsWithAt(source, index, TRIPLE_QUOTE)
  {
    assert index + 3 <= |source| ==> source[index..index + 3][1] == source[index + 1];
  }

  lemma {:induction false} ReadIsPrinted(language: Language, source: string, openingQuote: nat)
    returns (elements: seq<Element>)
    requires ReadLiteral(language, source, openingQuote).Some?
    ensures IsPrintedAt(language, source, openingQuote, elements)
    ensures ReadLiteral(language, source, openingQuote)
         == Some(Literal(openingQuote + |Print(language, elements)| + 2, Meaning(language, elements)))
  {
    hide *;
    var literal := ReadLiteral(language, source, openingQuote).value;
    LiteralHasBody(language, source, openingQuote);
    elements := ElementsAt(language, source, openingQuote + 1);
    Requoted(source, openingQuote, literal.end, Print(language, elements));
    PrintedFrom(language, source, openingQuote, elements);
  }

  lemma {:induction false} LiteralHasBody(language: Language, source: string, openingQuote: nat)
    requires ReadLiteral(language, source, openingQuote).Some?
    ensures openingQuote < |source| && source[openingQuote] == QUOTE
              && !StartsWithAt(source, openingQuote, TRIPLE_QUOTE)
    ensures ReadLiteral(language, source, openingQuote) == ReadBody(language, source, openingQuote + 1)
  {
  }

  lemma {:induction false} Requoted(source: string, openingQuote: nat, end: nat, printed: string)
    requires openingQuote + 1 < end <= |source| && source[openingQuote] == QUOTE && source[end - 1] == QUOTE
    requires source[openingQuote + 1..end - 1] == printed
    ensures end == openingQuote + |printed| + 2
    ensures StartsWithAt(source, openingQuote, [QUOTE] + (printed + [QUOTE]))
  {
    SliceFirst(source, openingQuote, end);
    SliceSplit(source, openingQuote + 1, end - 1, end);
    assert source[end - 1..end] == [QUOTE];
  }

  lemma {:induction false} PrintedFrom(language: Language, source: string, openingQuote: nat, elements: seq<Element>)
    requires Legal(language, elements) && !StartsWithAt(source, openingQuote, TRIPLE_QUOTE)
    requires StartsWithAt(source, openingQuote, [QUOTE] + (Print(language, elements) + [QUOTE]))
    ensures IsPrintedAt(language, source, openingQuote, elements)
  {
  }

  /** The readers accept exactly the printed literals, with exactly their meanings. */
  lemma {:induction false} ReadsExactlyPrinted(language: Language, source: string, openingQuote: nat, literal: Literal)
    ensures ReadLiteral(language, source, openingQuote) == Some(literal)
       <==> exists elements: seq<Element> ::
              && IsPrintedAt(language, source, openingQuote, elements)
              && literal == Literal(openingQuote + |Print(language, elements)| + 2, Meaning(language, elements))
  {
    hide *;
    if ReadLiteral(language, source, openingQuote) == Some(literal) {
      var elements := ReadIsPrinted(language, source, openingQuote);
    }
    forall elements: seq<Element> | IsPrintedAt(language, source, openingQuote, elements)
      ensures ReadLiteral(language, source, openingQuote)
           == Some(Literal(openingQuote + |Print(language, elements)| + 2, Meaning(language, elements)))
    {
      PrintedIsRead(language, source, openingQuote, elements);
    }
  }

  /** Text, interpolations, and escapes the readers leave to others (such as the `\u` of
      `\u{201C}`), as the author of a string means them. */
  datatype Piece = Text(text: string) | Code(body: Body) | Kept(c: char)

  predicate LegalPiece(language: Language, piece: Piece) {
    match piece
    case Text(_) => true
    case Code(body) => LegalBody(language, body)
    case Kept(c) => c !in ['n', 'r', 't', QUOTE, BACKSLASH] && c != if language.Kotlin? then '$' else '('
  }

  /** How a character of text is safely written. */
  function Spell(c: char): Element {
    if c == '\n' then Escape('n')
    else if c == '\r' then Escape('r')
    else if c == '\t' then Escape('t')
    else if c == QUOTE || c == BACKSLASH then Escape(c)
    else Raw(c)
  }

  function SpellText(language: Language, text: string): seq<Element> {
    if text == "" then []
    else [if language.Kotlin? && text[0] == '$' then Escape('$') else Spell(text[0])] + SpellText(language, text[1..])
  }

  function SpellPieces(language: Language, pieces: seq<Piece>): seq<Element> {
    if pieces == [] then []
    else (match pieces[0]
          case Text(text) => SpellText(language, text)
          case Code(body) => [Interpolation(body)]
          case Kept(c) => [Escape(c)])
         + SpellPieces(language, pieces[1..])
  }

  /** The string the pieces stand for. */
  function Spoken(language: Language, pieces: seq<Piece>): string {
    if pieces == [] then ""
    else (match pieces[0]
          case Text(text) => text
          case Code(body) =>
            if language.Swift? then "\\(" + PrintBody(Swift, body) + ")" else "${" + PrintBody(Kotlin, body) + "}"
          case Kept(c) => [BACKSLASH, c])
         + Spoken(language, pieces[1..])
  }

  /** Elements that are legal next to anything. */
  predicate Safe(language: Language, elements: seq<Element>) {
    forall i | 0 <= i < |elements| ::
      LegalElement(language, elements[i]) && (language.Kotlin? ==> elements[i] != Raw('$'))
  }

  lemma {:induction false} MeaningOfConcat(language: Language, a: seq<Element>, b: seq<Element>)
    ensures Meaning(language, a + b) == Meaning(language, a) + Meaning(language, b)
  {
    if a == [] {
      assert a + b == b;
    } else {
      assert (a + b)[1..] == a[1..] + b;
      MeaningOfConcat(language, a[1..], b);
      Associative(MeaningOf(language, a[0]), Meaning(language, a[1..]), Meaning(language, b));
    }
  }

  lemma {:induction false} SpelledTextMeansText(language: Language, text: string)
    ensures Safe(language, SpellText(language, text)) && Meaning(language, SpellText(language, text)) == text
  {
    if text != "" {
      SpelledTextMeansText(language, text[1..]);
      var elements := SpellText(language, text);
      assert elements[1..] == SpellText(language, text[1..]);
      assert MeaningOf(language, elements[0]) == [text[0]];
      assert text == [text[0]] + text[1..];
    }
  }

  lemma {:induction false} InterpolationIsWritten(language: Language, body: Body)
    ensures PrintElement(language, Interpolation(body))
         == if language.Swift? then "\\(" + PrintBody(Swift, body) + ")" else "${" + PrintBody(Kotlin, body) + "}"
  {
    hide PrintBody;
  }

  lemma {:induction false} SpelledPiecesMeanPieces(language: Language, pieces: seq<Piece>)
    requires forall i | 0 <= i < |pieces| :: LegalPiece(language, pieces[i])
    ensures Safe(language, SpellPieces(language, pieces))
    ensures Meaning(language, SpellPieces(language, pieces)) == Spoken(language, pieces)
  {
    if pieces != [] {
      var first := match pieces[0]
        case Text(text) => SpellText(language, text)
        case Code(body) => [Interpolation(body)]
        case Kept(c) => [Escape(c)];
      SpelledPiecesMeanPieces(language, pieces[1..]);
      if pieces[0].Code? { InterpolationIsWritten(language, pieces[0].body); }
      MeaningOfConcat(language, first, SpellPieces(language, pieces[1..]));
      if pieces[0].Text? {
        SpelledTextMeansText(language, pieces[0].text);
      } else {
        assert first[1..] == [];
      }
    }
  }

  /** Escaping and quoting any pieces, then reading the result wherever it stands, gives
      the texts decoded and the interpolations and the other escapes verbatim, and ends
      just past the closing quote. The exception is an empty string followed by a quote. */
  lemma {:induction false} RoundTrip(language: Language, before: string, pieces: seq<Piece>, after: string)
    requires forall i | 0 <= i < |pieces| :: LegalPiece(language, pieces[i])
    ensures var printed := Print(language, SpellPieces(language, pieces));
            var source := before + ([QUOTE] + (printed + [QUOTE])) + after;
            ReadLiteral(language, source, |before|)
            == if SpellPieces(language, pieces) == [] && after != "" && after[0] == QUOTE then None
               else Some(Literal(|before| + |printed| + 2, Spoken(language, pieces)))
  {
    hide *;
    var elements := SpellPieces(language, pieces);
    var printed := Print(language, elements);
    SpelledPiecesMeanPieces(language, pieces);
    SafeIsLegal(language, elements);
    QuotedStandsAt(before, printed, after);
    PrintsNothing(language, elements);
    if elements == [] && after != "" && after[0] == QUOTE {
      NotPrinted(language, before + ([QUOTE] + (printed + [QUOTE])) + after, |before|);
    } else {
      PrintedIsHere(language, before + ([QUOTE] + (printed + [QUOTE])) + after, |before|, elements);
    }
  }

  lemma {:induction false} SafeIsLegal(language: Language, elements: seq<Element>)
    requires Safe(language, elements)
    ensures Legal(language, elements)
  {
  }

  lemma {:induction false} PrintsNothing(language: Language, elements: seq<Element>)
    ensures elements == [] ==> Print(language, elements) == ""
  {
  }

  lemma {:induction false} NotPrinted(language: Language, source: string, openingQuote: nat)
    requires StartsWithAt(source, openingQuote, TRIPLE_QUOTE)
    ensures ReadLiteral(language, source, openingQuote) == None
  {
  }

  lemma {:induction false} PrintedIsHere(language: Language, source: string, openingQuote: nat, elements: seq<Element>)
    requires Legal(language, elements)
    requires StartsWithAt(source, openingQuote, [QUOTE] + (Print(language, elements) + [QUOTE]))
    requires elements == [] ==> !StartsWithAt(source, openingQuote, TRIPLE_QUOTE)
    ensures ReadLiteral(language, source, openingQuote)
         == Some(Literal(openingQuote + |Print(language, elements)| + 2, Meaning(language, elements)))
  {
    assert IsPrintedAt(language, source, openingQuote, elements);
    hide *;
    PrintedIsRead(language, source, openingQuote, elements);
  }

  lemma {:induction false} QuotedStandsAt(before: string, printed: string, after: string)
    ensures var source := before + ([QUOTE] + (printed + [QUOTE])) + after;
            && StartsWithAt(source, |before|, [QUOTE] + (printed + [QUOTE]))
            && (printed == "" ==> (StartsWithAt(source, |before|, TRIPLE_QUOTE) <==> after != "" && after[0] == QUOTE))
  {
    var literal := [QUOTE] + (printed + [QUOTE]);
    var source := before + literal + after;
    assert source[|before|..|before| + |literal|] == literal;
    if printed == "" {
      assert literal == [QUOTE, QUOTE];
      assert after != "" ==> source[|before|..|before| + 3] == [QUOTE, QUOTE, after[0]];
    }
  }

  // ------------------------------------------------------- braces and lists of literals

  /** Looks for the brace that closes the one at `openingBrace`, if one is there. */
  method FindClosingBrace(source: string, openingBrace: nat) returns (closingBrace: Option<nat>)
    ensures closingBrace == CloseAt(Kotlin, source, openingBrace, 0, false, false)
    ensures openingBrace < |source| && source[openingBrace] == '{' ==>
              closingBrace == CloseAt(Kotlin, source, openingBrace + 1, 1, false, false)
  {
    if openingBrace >= |source| {
      return None;
    }
    var depth, quoted, escaped := 0, false, false;
    for index := openingBrace to |source|
      invariant escaped ==> quoted
      invariant CloseAt(Kotlin, source, openingBrace, 0, false, false)
                == CloseAt(Kotlin, source, index, depth, quoted, escaped)
    {
      var character := source[index];
      if escaped {
        escaped := false;
        continue;
      }
      if quoted && character == BACKSLASH {
        escaped := true;
        continue;
      }
      if character == QUOTE {
        quoted := !quoted;
        continue;
      }
      if quoted {
        continue;
      }
      if character == '{' {
        depth := depth + 1;
      } else if character == '}' {
        depth := depth - 1;
        if depth == 0 {
          return Some(index);
        }
      }
    }
    return None;
  }

  /** An opened bracket is closed at `end` exactly if a well-balanced body stands in
      between. */
  lemma {:induction false} ClosesExactlyBodies(language: Language, source: string, start: nat, end: nat)
    ensures CloseAt(language, source, start, 1, false, false) == Some(end)
       <==> exists body: Body ::
              && LegalBody(language, body) && end == start + |PrintBody(language, body)|
              && StartsWithAt(source, start, PrintBody(language, body) + [CloseBracket(language)])
  {
    hide *;
    if CloseAt(language, source, start, 1, false, false) == Some(end) {
      var body := BodyAt(language, source, start);
    }
    forall body: Body | LegalBody(language, body)
        && StartsWithAt(source, start, PrintBody(language, body) + [CloseBracket(language)])
      ensures CloseAt(language, source, start, 1, false, false) == Some(start + |PrintBody(language, body)|)
    {
      PrefixSplit(source, start, PrintBody(language, body), [CloseBracket(language)]);
      CloseAtSkipsBody(language, source, start, 1, body);
      ClosesHere(language, source, start + |PrintBody(language, body)|);
    }
  }

  lemma {:induction false} ClosesHere(language: Language, source: string, index: nat)
    requires StartsWithAt(source, index, [CloseBracket(language)])
    ensures CloseAt(language, source, index, 1, false, false) == Some(index)
  {
    assert [CloseBracket(language)] == [CloseBracket(language)] + "";
    PrefixFirst(source, index, CloseBracket(language), "");
  }

  lemma {:induction false} BodyAt(language: Language, source: string, start: nat) returns (body: Body)
    requires CloseAt(language, source, start, 1, false, false).Some?
    ensures LegalBody(language, body)
    ensures CloseAt(language, source, start, 1, false, false) == Some(start + |PrintBody(language, body)|)
    ensures StartsWithAt(source, start, PrintBody(language, body) + [CloseBracket(language)])
  {
    var bodies := BodiesAt(language, source, start, 1);
    body := bodies[0];
    hide CloseAt, LegalBody, PrintBody;
    var end := CloseAt(language, source, start, 1, false, false).value;
    SliceSplit(source, start, end, end + 1);
    assert source[end..end + 1] == [CloseBracket(language)];
  }

  datatype Found = Found(offset: nat, value: string)

  function FirstQuote(source: string, cursor: nat): (offset: Option<nat>)
    ensures offset.Some? ==> cursor <= offset.value < |source| && source[offset.value] == QUOTE
    ensures offset.Some? ==> forall i | cursor <= i < offset.value :: source[i] != QUOTE
    ensures offset.None? ==> forall i | cursor <= i < |source| :: source[i] != QUOTE
    decreases |source| - cursor
  {
    if cursor >= |source| then None
    else if source[cursor] == QUOTE then Some(cursor)
    else FirstQuote(source, cursor + 1)
  }

  /** The literals from `cursor` on: each is read at the first quote after the one
      before; the list ends at a quote that starts no literal or one that leaves the
      window. */
  function Extract(source: string, cursor: nat, end: nat): seq<Found>
    decreases end - cursor
  {
    var quote := FirstQuote(source, cursor);
    if cursor >= end || quote.None? || quote.value >= end then []
    else
      var literal := ReadLiteral(Kotlin, source, quote.value);
      if literal.None? || literal.value.end > end then []
      else [Found(quote.value, literal.value.value)] + Extract(source, literal.value.end, end)
  }

  method ExtractKotlinStringLiterals(source: string, start: nat, end: nat) returns (values: seq<Found>)
    ensures values == Extract(source, start, end)
  {
    hide ReadLiteral;
    values := [];
    var cursor := start;
    while cursor < end
      invariant Extract(source, start, end) == values + Extract(source, cursor, end)
      decreases end - cursor
    {
      var openingQuote := FirstQuote(source, cursor);
      if openingQuote.None? || openingQuote.value >= end {
        break;
      }
      var literal := ReadKotlinStringLiteral(source, openingQuote.value);
      if literal.None? || literal.value.end > end {
        break;
      }
      values := values + [Found(openingQuote.value, literal.value.value)];
      cursor := literal.value.end;
    }
    assert Extract(source, cursor, end) == [];
  }

  /** Where the literal at `offset` ends. */
  function EndOf(source: string, offset: nat): nat {
    var literal := ReadLiteral(Kotlin, source, offset);
    if literal.Some? then literal.value.end else offset
  }

  /** Where the last of the literals ends; the start if there is none. */
  function LastEnd(source: string, start: nat, values: seq<Found>): nat {
    if values == [] then start else EndOf(source, values[|values| - 1].offset)
  }

  lemma {:induction false} FirstExtracted(source: string, start: nat, end: nat)
    requires Extract(source, start, end) != []
    ensures var first := Extract(source, start, end)[0];
            && FirstQuote(source, start) == Some(first.offset)
            && ReadLiteral(Kotlin, source, first.offset) == Some(Literal(EndOf(source, first.offset), first.value))
            && start <= first.offset < EndOf(source, first.offset) <= end
            && Extract(source, start, end) == [first] + Extract(source, EndOf(source, first.offset), end)
  {
    hide ReadLiteral;
  }

  /** The literal at `found` lies in the window and has the value that is read there. */
  ghost predicate IsInWindow(source: string, start: nat, end: nat, found: Found) {
    && ReadLiteral(Kotlin, source, found.offset) == Some(Literal(EndOf(source, found.offset), found.value))
    && start <= found.offset < EndOf(source, found.offset) <= end
  }

  /** Extracted literals lie in the window, in order and without overlap, with the
      values that are read at their offsets. */
  lemma {:induction false} ExtractedAreDisjoint(source: string, start: nat, end: nat)
    ensures var values := Extract(source, start, end);
            && (forall i | 0 <= i < |values| :: IsInWindow(source, start, end, values[i]))
            && (forall i, j | 0 <= i < j < |values| :: EndOf(source, values[i].offset) <= values[j].offset)
    decreases end - start
  {
    hide Extract, ReadLiteral, EndOf;
    var values := Extract(source, start, end);
    if values != [] {
      FirstExtracted(source, start, end);
      var next := EndOf(source, values[0].offset);
      var rest := Extract(source, next, end);
      ExtractedAreDisjoint(source, next, end);
      forall i | 0 <= i < |values| ensures IsInWindow(source, start, end, values[i]) {
        assert i > 0 ==> values[i] == rest[i - 1] && IsInWindow(source, next, end, rest[i - 1]);
      }
      forall i, j | 0 <= i < j < |values| ensures EndOf(source, values[i].offset) <= values[j].offset {
        assert values[j] == rest[j - 1] && IsInWindow(source, next, end, rest[j - 1]);
        assert i > 0 ==> values[i] == rest[i - 1];
      }
    }
  }

  /** `quote` is the first quote from `cursor` on. */
  predicate IsFirstQuote(source: string, cursor: nat, quote: nat) {
    && cursor <= quote < |source| && source[quote] == QUOTE
    && forall k | cursor <= k < quote :: source[k] != QUOTE
  }

  /** From `cursor` on, the window has no quote, or its first one starts no literal or
      one that leaves the window. */
  predicate StopsAt(source: string, cursor: nat, end: nat) {
    forall quote: nat | IsFirstQuote(source, cursor, quote) && quote < end ::
      var literal := ReadLiteral(Kotlin, source, quote); literal.None? || literal.value.end > end
  }

  lemma {:induction false} StopsIff(source: string, cursor: nat, end: nat)
    ensures Extract(source, cursor, end) == [] <==> StopsAt(source, cursor, end)
  {
    hide ReadLiteral;
    var first := FirstQuote(source, cursor);
    if first.Some? {
      assert IsFirstQuote(source, cursor, first.value);
    }
  }

  /** Every quote from `start` up to the end of the last literal lies in one of them. */
  ghost predicate Covers(source: string, start: nat, values: seq<Found>) {
    forall k: nat | start <= k < LastEnd(source, start, values) && k < |source| && source[k] == QUOTE ::
      exists i | 0 <= i < |values| :: values[i].offset <= k < EndOf(source, values[i].offset)
  }

  /** The literals lie in the window, in order and without overlap, with the values read
      at their offsets; no quote up to the end of the last is left out, and there the
      window has no quote left or its first one starts no literal inside the window. */
  ghost predicate IsExtraction(source: string, start: nat, end: nat, values: seq<Found>) {
    && (forall i | 0 <= i < |values| :: IsInWindow(source, start, end, values[i]))
    && (forall i, j | 0 <= i < j < |values| :: EndOf(source, values[i].offset) <= values[j].offset)
    && Covers(source, start, values)
    && StopsAt(source, LastEnd(source, start, values), end)
  }

  /** That describes the extracted list, and no other. */
  lemma {:induction false} ExtractedIff(source: string, start: nat, end: nat, values: seq<Found>)
    ensures values == Extract(source, start, end) <==> IsExtraction(source, start, end, values)
  {
    hide *;
    if values == Extract(source, start, end) {
      ExtractedIsExtraction(source, start, end);
    }
    if IsExtraction(source, start, end, values) {
      ExtractionIsExtracted(source, start, end, values);
    }
  }

  lemma {:induction false} ExtractedIsExtraction(source: string, start: nat, end: nat)
    ensures IsExtraction(source, start, end, Extract(source, start, end))
  {
    ExtractedAreDisjoint(source, start, end);
    ExtractionIsComplete(source, start, end);
    StopsIff(source, LastEnd(source, start, Extract(source, start, end)), end);
    hide Extract, ReadLiteral, EndOf, IsInWindow, Covers, StopsAt, LastEnd;
  }

  lemma {:induction false} ExtractionIsComplete(source: string, start: nat, end: nat)
    ensures var values := Extract(source, start, end);
            Covers(source, start, values) && Extract(source, LastEnd(source, start, values), end) == []
    decreases end - start
  {
    hide Extract, ReadLiteral, EndOf;
    var values := Extract(source, start, end);
    if values != [] {
      FirstExtracted(source, start, end);
      var next := EndOf(source, values[0].offset);
      var rest := Extract(source, next, end);
      ExtractionIsComplete(source, next, end);
      assert LastEnd(source, start, values) == LastEnd(source, next, rest);
      forall k: nat | start <= k < LastEnd(source, start, values) && k < |source| && source[k] == QUOTE
        ensures exists i | 0 <= i < |values| :: values[i].offset <= k < EndOf(source, values[i].offset)
      {
        if k < next {
          assert values[0].offset <= k;
        } else {
          var j :| 0 <= j < |rest| && rest[j].offset <= k < EndOf(source, rest[j].offset);
          assert values[j + 1] == rest[j];
        }
      }
    }
  }

  lemma {:induction false} ExtractionIsExtracted(source: string, start: nat, end: nat, values: seq<Found>)
    requires IsExtraction(source, start, end, values)
    ensures values == Extract(source, start, end)
    decreases |values|
  {
    hide ReadLiteral, EndOf, Covers, StopsAt, Extract, IsInWindow;
    if values == [] {
      StopsIff(source, start, end);
    } else {
      var next := EndOf(source, values[0].offset);
      FirstIsFirstQuote(source, start, end, values);
      assert IsInWindow(source, start, end, values[0]);
      ExtractsFirst(source, start, end, values[0]);
      RestIsExtraction(source, start, end, values);
      ExtractionIsExtracted(source, next, end, values[1..]);
      hide *;
      assert values == [values[0]] + values[1..];
    }
  }

  lemma {:induction false} ExtractsFirst(source: string, start: nat, end: nat, found: Found)
    requires IsFirstQuote(source, start, found.offset) && IsInWindow(source, start, end, found)
    ensures Extract(source, start, end) == [found] + Extract(source, EndOf(source, found.offset), end)
  {
    assert FirstQuote(source, start) == Some(found.offset);
    hide ReadLiteral, EndOf, FirstQuote;
  }

  lemma {:induction false} FirstIsFirstQuote(source: string, start: nat, end: nat, values: seq<Found>)
    requires IsExtraction(source, start, end, values) && values != []
    ensures IsFirstQuote(source, start, values[0].offset)
  {
    var first := values[0];
    LastIsLast(source, start, end, values);
    assert IsInWindow(source, start, end, first);
    assert source[first.offset] == QUOTE;
    hide ReadLiteral, EndOf, LastEnd, StopsAt;
    forall i | 0 <= i < |values| ensures first.offset <= values[i].offset {
      assert i > 0 ==> EndOf(source, first.offset) <= values[i].offset;
    }
  }

  lemma {:induction false} LastIsLast(source: string, start: nat, end: nat, values: seq<Found>)
    requires IsExtraction(source, start, end, values) && values != []
    ensures values[0].offset < EndOf(source, values[0].offset) <= LastEnd(source, start, values)
    ensures LastEnd(source, start, values) == LastEnd(source, EndOf(source, values[0].offset), values[1..])
  {
    hide EndOf, ReadLiteral, Covers, StopsAt;
    var last := |values| - 1;
    assert IsInWindow(source, start, end, values[0]) && IsInWindow(source, start, end, values[last]);
    if last > 0 {
      assert EndOf(source, values[0].offset) <= values[last].offset;
    }
  }

  lemma {:induction false} RestIsExtraction(source: string, start: nat, end: nat, values: seq<Found>)
    requires IsExtraction(source, start, end, values) && values != []
    ensures IsExtraction(source, EndOf(source, values[0].offset), end, values[1..])
  {
    var next, rest := EndOf(source, values[0].offset), values[1..];
    hide EndOf, ReadLiteral, StopsAt, LastEnd, Covers;
    LastIsLast(source, start, end, values);
    RestIsCovered(source, start, end, values);
    assert IsInWindow(source, start, end, values[0]);
    forall i | 0 <= i < |rest| ensures IsInWindow(source, next, end, rest[i]) {
      assert IsInWindow(source, start, end, values[i + 1]) && next <= values[i + 1].offset;
    }
    forall i, j | 0 <= i < j < |rest| ensures EndOf(source, rest[i].offset) <= rest[j].offset {
      assert EndOf(source, values[i + 1].offset) <= values[j + 1].offset;
    }
  }

  lemma {:induction false} RestIsCovered(source: string, start: nat, end: nat, values: seq<Found>)
    requires IsExtraction(source, start, end, values) && values != []
    ensures Covers(source, EndOf(source, values[0].offset), values[1..])
  {
    hide EndOf, ReadLiteral, StopsAt, LastEnd;
    var next, rest := EndOf(source, values[0].offset), values[1..];
    LastIsLast(source, start, end, values);
    assert IsInWindow(source, start, end, values[0]);
    forall k: nat | next <= k < LastEnd(source, next, rest) && k < |source| && source[k] == QUOTE
      ensures exists i | 0 <= i < |rest| :: rest[i].offset <= k < EndOf(source, rest[i].offset)
    {
      var j :| 0 <= j < |values| && values[j].offset <= k < EndOf(source, values[j].offset);
      assert rest[j - 1] == values[j];
    }
  }

  /** A raw string stops the extraction, although a literal can be read further on. */
  lemma {:induction false} RawStringStopsExtraction()
    ensures var source := TRIPLE_QUOTE + ['a', QUOTE];
            && Extract(source, 0, 5) == []
            && ReadLiteral(Kotlin, source, 2) == Some(Literal(5, "a"))
  {
    var source := TRIPLE_QUOTE + ['a', QUOTE];
    assert source == [QUOTE, QUOTE, QUOTE, 'a', QUOTE];
    assert source[0..3] == TRIPLE_QUOTE;
    assert source[2..5][1] != TRIPLE_QUOTE[1];
    assert ReadBody(Kotlin, source, 4) == Some(Literal(5, ""));
    PrependEnd("a", 5);
    assert [source[3]] == "a";
    assert ReadBody(Kotlin, source, 3) == Some(Literal(5, "a"));
  }
}
