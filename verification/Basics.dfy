/** Vocabulary shared by the models: optional values, results that may fail, and
    the few string operations the scripts rely on. */
module Basics {

  datatype Option<+T> = None | Some(value: T)

  datatype Result<+T, +E> = Success(value: T) | Failure(error: E)

  /** The characters `String.prototype.trim` removes. */
  predicate IsWhitespace(c: char) {
    || '\t' <= c <= '\r'
    || c == ' '
    || c == '\U{00A0}' || c == '\U{1680}' || c == '\U{FEFF}'
    || '\U{2000}' <= c <= '\U{200A}'
    || c == '\U{2028}' || c == '\U{2029}' || c == '\U{202F}'
    || c == '\U{205F}' || c == '\U{3000}'
  }

  /** `!text.trim()`: nothing is left after trimming. */
  predicate IsBlank(text: string) {
    forall i | 0 <= i < |text| :: IsWhitespace(text[i])
  }

  /** `text.trim()`. */
  function Trim(text: string): string
    decreases |text|
  {
    if text == [] then []
    else if IsWhitespace(text[0]) then Trim(text[1..])
    else if IsWhitespace(text[|text| - 1]) then Trim(text[..|text| - 1])
    else text
  }

  /** Trimming takes whitespace off both ends, and all of it. */
  lemma {:induction false} TrimTakesEnds(text: string) returns (from: nat, to: nat)
    ensures from <= to <= |text| && Trim(text) == text[from..to]
    ensures forall i | 0 <= i < |text| && !(from <= i < to) :: IsWhitespace(text[i])
    ensures from < to ==> !IsWhitespace(text[from]) && !IsWhitespace(text[to - 1])
    decreases |text|
  {
    if text == [] {
      return 0, 0;
    }
    if IsWhitespace(text[0]) {
      from, to := TrimTakesEnds(text[1..]);
      from, to := from + 1, to + 1;
    } else if IsWhitespace(text[|text| - 1]) {
      from, to := TrimTakesEnds(text[..|text| - 1]);
    } else {
      from, to := 0, |text|;
    }
  }

  /** Lower-cases what becomes an ASCII letter: the ASCII letters and the Kelvin sign.
      That is all that matters when the result is searched for an ASCII phrase that
      does not end in `i` (a dotted capital I becomes an `i` and a combining dot). */
  function ToLower(text: string): string {
    seq(|text|, i requires 0 <= i < |text| => LowerChar(text[i]))
  }

  function LowerChar(c: char): char {
    if 'A' <= c <= 'Z' then c - 'A' + 'a' else if c == '\U{212A}' then 'k' else c
  }

  predicate StartsWithAt(text: string, offset: nat, phrase: string) {
    offset + |phrase| <= |text| && text[offset..offset + |phrase|] == phrase
  }

  predicate Contains(text: string, phrase: string) {
    exists offset: nat | offset <= |text| :: StartsWithAt(text, offset, phrase)
  }

  /** The character is this small letter or its capital; the Kelvin sign is a capital K. */
  predicate IsLetter(c: char, small: char) {
    c == small || ('a' <= small <= 'z' && c == small - 'a' + 'A') || (small == 'k' && c == '\U{212A}')
  }

  /** The text has the phrase, given in small letters, at this place, in capitals or not. */
  predicate SaysAt(text: string, offset: nat, phrase: string) {
    offset + |phrase| <= |text| && forall i | 0 <= i < |phrase| :: IsLetter(text[offset + i], phrase[i])
  }

  predicate IsSmall(phrase: string) {
    forall i | 0 <= i < |phrase| :: !('A' <= phrase[i] <= 'Z') && phrase[i] != '\U{212A}'
  }

  /** Searching a text in lower case finds the phrase exactly if the text says it somewhere. */
  lemma {:induction false} SaidAnywhere(text: string, phrase: string)
    requires IsSmall(phrase)
    ensures Contains(ToLower(text), phrase) <==> exists offset: nat :: SaysAt(text, offset, phrase)
  {
    var lower := ToLower(text);
    forall offset: nat | offset <= |text|
      ensures StartsWithAt(lower, offset, phrase) <==> SaysAt(text, offset, phrase)
    {
      if offset + |phrase| <= |text| {
        var part := lower[offset..offset + |phrase|];
        assert forall i | 0 <= i < |part| :: part[i] == LowerChar(text[offset + i]);
      }
    }
  }

  lemma SliceOfSlice<T>(s: seq<T>, a: nat, b: nat, i: nat, j: nat)
    requires a <= b <= |s| && i <= j <= b - a
    ensures s[a..b][i..j] == s[a + i..a + j]
  {
    var outer := s[a..b];
    forall k | 0 <= k < j - i ensures outer[i..j][k] == s[a + i..a + j][k] {
      assert outer[i..j][k] == outer[i + k];
    }
  }

  function Concat<T>(parts: seq<seq<T>>): seq<T> {
    if parts == [] then [] else parts[0] + Concat(parts[1..])
  }

  lemma {:induction false} ConcatAppend<T>(parts: seq<seq<T>>, last: seq<T>)
    ensures Concat(parts + [last]) == Concat(parts) + last
  {
    if parts == [] {
      assert parts + [last] == [last];
    } else {
      assert (parts + [last])[1..] == parts[1..] + [last];
      ConcatAppend(parts[1..], last);
    }
  }

  function Max(a: nat, b: nat): nat {
    if a < b then b else a
  }

  lemma {:induction false} SubsetIsNoLarger<T>(a: set<T>, b: set<T>)
    requires a <= b
    ensures |a| <= |b|
  {
    assert b == a + (b - a);
  }
}
