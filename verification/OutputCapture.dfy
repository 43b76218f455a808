/** The bounded capture of a child's output (scripts/control-ui-i18n.ts,
    `appendBoundedProcessOutput`). */
module OutputCapture {
  import opened Basics

  datatype Capture = Capture(text: string, truncatedChars: nat)

  const NOTHING := Capture("", 0)

  /** The limit is at least 1, as `resolveRunProcessOutputLimit` makes it. */
  function Append(capture: Capture, chunk: string, maxChars: nat): Capture
    requires maxChars >= 1
  {
    var nextText := capture.text + chunk;
    if |nextText| <= maxChars then Capture(nextText, capture.truncatedChars)
    else Capture(nextText[|nextText| - maxChars..], capture.truncatedChars + |nextText| - maxChars)
  }

  function AppendAll(chunks: seq<string>, maxChars: nat): Capture
    requires maxChars >= 1
  {
    if chunks == [] then NOTHING
    else Append(AppendAll(chunks[..|chunks| - 1], maxChars), chunks[|chunks| - 1], maxChars)
  }

  function Tail(text: string, maxChars: nat): string {
    if |text| <= maxChars then text else text[|text| - maxChars..]
  }

  /** However the output was cut into chunks, what is kept is its tail, and what is
      counted as truncated is the rest. */
  lemma {:induction false} CaptureIsTail(chunks: seq<string>, maxChars: nat)
    requires maxChars >= 1
    ensures AppendAll(chunks, maxChars)
         == Capture(Tail(Concat(chunks), maxChars), |Concat(chunks)| - |Tail(Concat(chunks), maxChars)|)
    decreases |chunks|
  {
    if chunks != [] {
      var before, last := chunks[..|chunks| - 1], chunks[|chunks| - 1];
      assert chunks == before + [last];
      ConcatAppend(before, last);
      CaptureIsTail(before, maxChars);
      TailOfTail(Concat(before), last, maxChars);
    }
  }

  lemma {:induction false} TailOfTail(text: string, more: string, maxChars: nat)
    ensures Tail(Tail(text, maxChars) + more, maxChars) == Tail(text + more, maxChars)
  {
    if |text| > maxChars {
      assert text + more == text[..|text| - maxChars] + (Tail(text, maxChars) + more);
    }
  }
}
