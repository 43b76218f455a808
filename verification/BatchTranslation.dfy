/** Translating one batch against an unreliable provider (scripts/control-ui-i18n.ts).

    The provider is an adversary: its n-th reply is an arbitrary answer or an
    arbitrary error. A batch is tried twice, and a batch of several items whose
    prompt timed out is halved and each half translated afresh. */
module BatchTranslation {
  import opened Basics
  import opened TranslationBatches

  /** A property of the parsed reply: a string, or any other JSON value. */
  datatype Json = JsonText(text: string) | JsonOther

  /** What one prompt comes to: a parsed object, or an error with its message
      (a provider error, a prompt timeout, or a reply that is not JSON). */
  datatype Reply = Answer(fields: map<string, Json>) | Fault(message: string)

  type Provider = nat -> Reply

  const TRANSLATE_MAX_ATTEMPTS: nat := 2

  predicate IsPromptTimeout(message: string) {
    Contains(ToLower(message), "timed out")
  }

  /** An error counts as a prompt timeout exactly if its message says so anywhere. */
  lemma {:induction false} TimeoutIsSaid(message: string)
    ensures IsPromptTimeout(message) <==> exists offset: nat :: SaysAt(message, offset, "timed out")
  {
    SaidAnywhere(message, "timed out");
  }

  predicate HasTranslation(fields: map<string, Json>, key: string) {
    key in fields && fields[key].JsonText? && !IsBlank(fields[key].text)
  }

  function Keys(items: seq<BatchItem>): set<string> {
    if items == [] then {} else Keys(items[..|items| - 1]) + {items[|items| - 1].key}
  }

  lemma {:induction false} KeysAreKeys(items: seq<BatchItem>, key: string)
    ensures key in Keys(items) <==> exists i :: 0 <= i < |items| && items[i].key == key
  {
    if items != [] {
      KeysAreKeys(items[..|items| - 1], key);
    }
  }

  lemma {:induction false} KeysOfBoth(a: seq<BatchItem>, b: seq<BatchItem>)
    ensures Keys(a + b) == Keys(a) + Keys(b)
  {
    if b == [] {
      assert a + b == a;
    } else {
      KeysOfBoth(a, b[..|b| - 1]);
      assert (a + b)[..|a + b| - 1] == a + b[..|b| - 1];
    }
  }

  /** How one attempt ends: with translations, with a prompt timeout, or with any
      other error. */
  datatype Verdict =
    | Translated(values: map<string, string>)
    | TimedOut(message: string)
    | Rejected(message: string)

  function Raised(message: string): Verdict {
    if IsPromptTimeout(message) then TimedOut(message) else Rejected(message)
  }

  predicate AllTranslated(fields: map<string, Json>, items: seq<BatchItem>) {
    forall i | 0 <= i < |items| :: HasTranslation(fields, items[i].key)
  }

  function FirstMissing(fields: map<string, Json>, items: seq<BatchItem>): (key: string)
    requires !AllTranslated(fields, items)
    ensures !HasTranslation(fields, key)
  {
    if !HasTranslation(fields, items[0].key) then items[0].key else FirstMissing(fields, items[1..])
  }

  /** The translations a reply carries for the items, or the error it raises: the
      first item without a usable translation is named in the message. */
  function Judge(reply: Reply, items: seq<BatchItem>): Verdict {
    match reply
    case Fault(message) => Raised(message)
    case Answer(fields) =>
      if AllTranslated(fields, items) then
        Translated(map key | key in Keys(items) && HasTranslation(fields, key) :: fields[key].text)
      else
        Raised("missing translation for " + FirstMissing(fields, items))
  }

  method CollectTranslations(fields: map<string, Json>, items: seq<BatchItem>)
    returns (result: Result<map<string, string>, string>)
    ensures Judge(Answer(fields), items) ==
            match result case Success(values) => Translated(values) case Failure(message) => Raised(message)
  {
    var translated: map<string, string> := map[];
    for n := 0 to |items|
      invariant AllTranslated(fields, items[..n])
      invariant translated.Keys == Keys(items[..n])
      invariant forall key | key in translated :: HasTranslation(fields, key) && translated[key] == fields[key].text
    {
      var key := items[n].key;
      if !HasTranslation(fields, key) {
        FirstMissingIsFirst(fields, items, n);
        return Failure("missing translation for " + key);
      }
      translated := translated[key := fields[key].text];
      assert items[..n + 1][..n] == items[..n];
    }
    assert items[..|items|] == items;
    return Success(translated);
  }

  lemma {:induction false} FirstMissingIsFirst(fields: map<string, Json>, items: seq<BatchItem>, n: nat)
    requires n < |items| && !HasTranslation(fields, items[n].key)
    requires AllTranslated(fields, items[..n])
    ensures !AllTranslated(fields, items) && FirstMissing(fields, items) == items[n].key
  {
    if n > 0 {
      assert items[..n][0] == items[0];
      assert items[1..][n - 1] == items[n];
      assert items[1..][..n - 1] == items[..n][1..];
      FirstMissingIsFirst(fields, items[1..], n - 1);
    }
  }

  /** The verdict on the n-th prompt of a run, had it been sent for these items. */
  type Oracle = (nat, seq<BatchItem>) -> Verdict

  function Judged(provider: Provider): Oracle {
    (n: nat, items: seq<BatchItem>) => Judge(provider(n), items)
  }

  /** The result of a batch, how many prompts it took, and how deep it was split. */
  datatype BatchRun = BatchRun(result: Result<map<string, string>, string>, prompts: nat, depth: nat)

  function Midpoint(items: seq<BatchItem>): (mid: nat)
    ensures |items| > 1 ==> 0 < mid < |items|
  {
    (|items| + 1) / 2
  }

  /** The attempts of one batch from `attempt` on, the next prompt being number
      `start` of the whole run. */
  function Attempts(oracle: Oracle, start: nat, items: seq<BatchItem>, attempt: nat, depth: nat): BatchRun
    requires attempt < TRANSLATE_MAX_ATTEMPTS
    decreases |items|, TRANSLATE_MAX_ATTEMPTS - attempt
  {
    match oracle(start, items)
    case Translated(values) =>
      BatchRun(Success(values), 1, depth)
    case TimedOut(message) =>
      if |items| > 1 then Halves(oracle, start + 1, items, depth + 1)
      else BatchRun(Failure(message), 1, depth)
    case Rejected(message) =>
      if attempt + 1 < TRANSLATE_MAX_ATTEMPTS then
        var rest := Attempts(oracle, start + 1, items, attempt + 1, depth);
        rest.(prompts := 1 + rest.prompts)
      else BatchRun(Failure(message), 1, depth)
  }

  /** A timed-out batch: its two halves in turn, one prompt having been spent. */
  function Halves(oracle: Oracle, start: nat, items: seq<BatchItem>, depth: nat): BatchRun
    requires |items| > 1
    decreases |items|, 0
  {
    var mid := Midpoint(items);
    var left := Attempts(oracle, start, items[..mid], 0, depth);
    if left.result.Failure? then
      left.(prompts := 1 + left.prompts)
    else
      var right := Attempts(oracle, start + left.prompts, items[mid..], 0, depth);
      BatchRun(
        if right.result.Failure? then right.result
        else Success(left.result.value + right.result.value),
        1 + left.prompts + right.prompts,
        Max(left.depth, right.depth))
  }

  /** What one more attempt makes of a batch: it settles it, or the next one does. */
  lemma {:induction false} OneAttempt(oracle: Oracle, start: nat, items: seq<BatchItem>, attempt: nat, depth: nat)
    requires attempt < TRANSLATE_MAX_ATTEMPTS
    ensures var run := Attempts(oracle, start, items, attempt, depth);
            match oracle(start, items)
            case Translated(values) => run == BatchRun(Success(values), 1, depth)
            case TimedOut(message) => |items| <= 1 ==> run == BatchRun(Failure(message), 1, depth)
            case Rejected(message) =>
              if attempt + 1 == TRANSLATE_MAX_ATTEMPTS then run == BatchRun(Failure(message), 1, depth)
              else var rest := Attempts(oracle, start + 1, items, attempt + 1, depth);
                   run == rest.(prompts := 1 + rest.prompts)
  {
  }

  /** A batch that times out is what its halves make of it. */
  lemma {:induction false} SplitAttempt(oracle: Oracle, start: nat, items: seq<BatchItem>, attempt: nat, depth: nat)
    requires attempt < TRANSLATE_MAX_ATTEMPTS && oracle(start, items).TimedOut? && |items| > 1
    ensures var run, mid := Attempts(oracle, start, items, attempt, depth), Midpoint(items);
            var left := Attempts(oracle, start + 1, items[..mid], 0, depth + 1);
            var right := Attempts(oracle, start + 1 + left.prompts, items[mid..], 0, depth + 1);
            if left.result.Failure? then run == left.(prompts := 1 + left.prompts)
            else run == BatchRun(if right.result.Failure? then right.result
                                 else Success(left.result.value + right.result.value),
                                 1 + left.prompts + right.prompts, Max(left.depth, right.depth))
  {
    assert Attempts(oracle, start, items, attempt, depth) == Halves(oracle, start + 1, items, depth + 1);
  }

  /** `translateBatch`: the retry loop around the recursive halving. */
  method TranslateBatch(provider: Provider, start: nat, items: seq<BatchItem>, splitDepth: nat)
    returns (result: Result<map<string, string>, string>, prompts: nat, depth: nat)
    ensures BatchRun(result, prompts, depth) == Attempts(Judged(provider), start, items, 0, splitDepth)
    decreases |items|
  {
    hide Attempts, Halves, IsPromptTimeout;
    result, prompts, depth := Failure("translation failed"), 0, splitDepth;
    ghost var oracle := Judged(provider);
    ghost var whole := Attempts(oracle, start, items, 0, splitDepth);
    var attempt := 0;
    while attempt < TRANSLATE_MAX_ATTEMPTS
      invariant attempt <= TRANSLATE_MAX_ATTEMPTS && depth == splitDepth && prompts == attempt
      invariant attempt < TRANSLATE_MAX_ATTEMPTS ==>
                  var rest := Attempts(oracle, start + prompts, items, attempt, splitDepth);
                  whole == rest.(prompts := prompts + rest.prompts)
      invariant attempt == TRANSLATE_MAX_ATTEMPTS ==> whole == BatchRun(result, prompts, depth)
    {
      var reply := provider(start + prompts);
      ghost var verdict := oracle(start + prompts, items);
      if reply.Answer? {
        result := CollectTranslations(reply.fields, items);
      } else {
        result := Failure(reply.message);
      }
      OneAttempt(oracle, start + prompts, items, attempt, splitDepth);
      prompts := prompts + 1;
      if result.Success? {
        return;
      }
      assert verdict == Raised(result.error);
      var timedOut := IsPromptTimeout(result.error);
      if timedOut && |items| > 1 {
        var mid := Midpoint(items);
        SplitAttempt(oracle, start + prompts - 1, items, attempt, splitDepth);
        var left, leftPrompts, leftDepth := TranslateBatch(provider, start + prompts, items[..mid], splitDepth + 1);
        prompts := prompts + leftPrompts;
        if left.Failure? {
          return left, prompts, leftDepth;
        }
        var right, rightPrompts, rightDepth := TranslateBatch(provider, start + prompts, items[mid..], splitDepth + 1);
        prompts := prompts + rightPrompts;
        result := if right.Failure? then right else Success(left.value + right.value);
        return result, prompts, Max(leftDepth, rightDepth);
      }
      if timedOut {
        break;
      }
      attempt := attempt + 1;
    }
  }

  /** Whatever the provider does, n items cost at most 4n - 2 prompts. */
  lemma {:induction false} PromptBound(oracle: Oracle, start: nat, items: seq<BatchItem>, attempt: nat, depth: nat)
    requires attempt < TRANSLATE_MAX_ATTEMPTS && items != []
    ensures 1 <= Attempts(oracle, start, items, attempt, depth).prompts <= 4 * |items| - 2 - attempt
    decreases |items|, TRANSLATE_MAX_ATTEMPTS - attempt
  {
    var verdict := oracle(start, items);
    if verdict.TimedOut? && |items| > 1 {
      var mid := Midpoint(items);
      var left := Attempts(oracle, start + 1, items[..mid], 0, depth + 1);
      PromptBound(oracle, start + 1, items[..mid], 0, depth + 1);
      PromptBound(oracle, start + 1 + left.prompts, items[mid..], 0, depth + 1);
    } else if verdict.Rejected? && attempt + 1 < TRANSLATE_MAX_ATTEMPTS {
      PromptBound(oracle, start + 1, items, attempt + 1, depth);
    }
  }

  /** The replies that hurt most: every batch fails once, then times out until it
      is a single item, which is translated at the second attempt. */
  function WorstReplies(items: seq<BatchItem>): (replies: seq<Reply>)
    requires items != []
    ensures |replies| == 4 * |items| - 2
  {
    if |items| == 1 then
      [Fault(""), Answer(map[items[0].key := JsonText("x")])]
    else
      var mid := Midpoint(items);
      [Fault(""), Fault("timed out")] + WorstReplies(items[..mid]) + WorstReplies(items[mid..])
  }

  lemma {:induction false} WorstVerdicts(items: seq<BatchItem>)
    ensures Judge(Fault(""), items) == Rejected("")
    ensures Judge(Fault("timed out"), items) == TimedOut("timed out")
    ensures |items| == 1 ==> Judge(Answer(map[items[0].key := JsonText("x")]), items).Translated?
  {
    assert ToLower("timed out") == "timed out";
    assert StartsWithAt(ToLower("timed out"), 0, "timed out");
    assert !IsWhitespace("x"[0]);
  }

  /** A batch that fails once, times out, and whose halves both succeed. */
  lemma {:induction false} FailThenSplit(oracle: Oracle, start: nat, items: seq<BatchItem>, depth: nat)
    requires |items| > 1 && oracle(start, items).Rejected? && oracle(start + 1, items).TimedOut?
    ensures var mid := Midpoint(items);
            var left := Attempts(oracle, start + 2, items[..mid], 0, depth + 1);
            var right := Attempts(oracle, start + 2 + left.prompts, items[mid..], 0, depth + 1);
            var run := Attempts(oracle, start, items, 0, depth);
            left.result.Success? && right.result.Success? ==>
              run.result.Success? && run.prompts == 2 + left.prompts + right.prompts
  {
    assert Attempts(oracle, start + 1, items, 1, depth) == Halves(oracle, start + 2, items, depth + 1);
  }

  ghost predicate Replays(provider: Provider, start: nat, replies: seq<Reply>) {
    forall i | 0 <= i < |replies| :: provider(start + i) == replies[i]
  }

  lemma {:induction false} ReplaysParts(provider: Provider, start: nat, a: seq<Reply>, b: seq<Reply>)
    requires Replays(provider, start, a + b)
    ensures Replays(provider, start, a) && Replays(provider, start + |a|, b)
  {
    forall i | 0 <= i < |a| ensures provider(start + i) == a[i] {
      assert (a + b)[i] == a[i];
    }
    forall i | 0 <= i < |b| ensures provider(start + |a| + i) == b[i] {
      assert (a + b)[|a| + i] == b[i] && provider(start + (|a| + i)) == b[i];
    }
  }

  ghost predicate WorstOracle(oracle: Oracle, start: nat, items: seq<BatchItem>)
    requires items != []
    decreases |items|
  {
    && oracle(start, items).Rejected?
    && if |items| == 1 then oracle(start + 1, items).Translated?
       else
         var mid := Midpoint(items);
         && oracle(start + 1, items).TimedOut?
         && WorstOracle(oracle, start + 2, items[..mid])
         && WorstOracle(oracle, start + 4 * mid, items[mid..])
  }

  lemma {:induction false} ReplaysWorstParts(provider: Provider, start: nat, items: seq<BatchItem>)
    requires |items| > 1 && Replays(provider, start, WorstReplies(items))
    ensures provider(start) == Fault("") && provider(start + 1) == Fault("timed out")
    ensures Replays(provider, start + 2, WorstReplies(items[..Midpoint(items)]))
    ensures Replays(provider, start + 4 * Midpoint(items), WorstReplies(items[Midpoint(items)..]))
  {
    var opening, left, right := [Fault(""), Fault("timed out")],
      WorstReplies(items[..Midpoint(items)]), WorstReplies(items[Midpoint(items)..]);
    assert WorstReplies(items) == opening + left + right;
    ReplaysParts(provider, start, opening + left, right);
    ReplaysParts(provider, start, opening, left);
    assert provider(start + 0) == opening[0] && provider(start + 1) == opening[1];
  }

  lemma {:induction false} ReplaysWorstSingle(provider: Provider, start: nat, items: seq<BatchItem>)
    requires |items| == 1 && Replays(provider, start, WorstReplies(items))
    ensures WorstOracle(Judged(provider), start, items)
  {
    var worst := WorstReplies(items);
    assert provider(start + 0) == worst[0] && provider(start + 1) == worst[1];
    WorstVerdicts(items);
  }

  lemma {:induction false} WorstRepliesMakeWorstOracle(provider: Provider, start: nat, items: seq<BatchItem>)
    requires items != [] && Replays(provider, start, WorstReplies(items))
    ensures WorstOracle(Judged(provider), start, items)
    decreases |items|
  {
    if |items| == 1 {
      ReplaysWorstSingle(provider, start, items);
    } else {
      var mid := Midpoint(items);
      ReplaysWorstParts(provider, start, items);
      hide Replays, WorstReplies, Midpoint;
      WorstRepliesMakeWorstOracle(provider, start + 2, items[..mid]);
      WorstRepliesMakeWorstOracle(provider, start + 4 * mid, items[mid..]);
      WorstVerdicts(items);
    }
  }

  lemma {:induction false} WorstOracleCost(oracle: Oracle, start: nat, items: seq<BatchItem>, depth: nat)
    requires items != [] && WorstOracle(oracle, start, items)
    ensures var run := Attempts(oracle, start, items, 0, depth);
            run.prompts == 4 * |items| - 2 && run.result.Success?
    decreases |items|
  {
    if |items| > 1 {
      var mid := Midpoint(items);
      WorstOracleCost(oracle, start + 2, items[..mid], depth + 1);
      WorstOracleCost(oracle, start + 4 * mid, items[mid..], depth + 1);
      FailThenSplit(oracle, start, items, depth);
    } else {
      assert Attempts(oracle, start + 1, items, 1, depth).prompts == 1;
    }
  }

  /** The bound is met, by a run that even succeeds, for every batch. */
  lemma {:induction false} PromptBoundIsTight(items: seq<BatchItem>)
    requires items != []
    ensures exists provider: Provider ::
              var run := Attempts(Judged(provider), 0, items, 0, 0);
              run.prompts == 4 * |items| - 2 && run.result.Success?
  {
    var worst := WorstReplies(items);
    var provider: Provider := (n: nat) => if n < |worst| then worst[n] else Fault("");
    WorstRepliesMakeWorstOracle(provider, 0, items);
    WorstOracleCost(Judged(provider), 0, items, 0);
  }

  /** The smallest d with n <= 2^d (see CeilLog2IsLeast). */
  function CeilLog2(n: nat): nat {
    if n <= 1 then 0 else 1 + CeilLog2((n + 1) / 2)
  }

  function Pow2(d: nat): nat {
    if d == 0 then 1 else 2 * Pow2(d - 1)
  }

  lemma {:induction false} CeilLog2IsLeast(n: nat, d: nat)
    requires n >= 1
    ensures n <= Pow2(d) <==> CeilLog2(n) <= d
  {
    if n > 1 && d > 0 {
      CeilLog2IsLeast((n + 1) / 2, d - 1);
    } else if n == 1 {
      Pow2Positive(d);
    }
  }

  lemma {:induction false} Pow2Positive(d: nat)
    ensures Pow2(d) >= 1
  {
    if d > 0 { Pow2Positive(d - 1); }
  }

  lemma {:induction false} CeilLog2Monotone(a: nat, b: nat)
    requires a <= b
    ensures CeilLog2(a) <= CeilLog2(b)
  {
    if a > 1 { CeilLog2Monotone((a + 1) / 2, (b + 1) / 2); }
  }

  /** The splitting stops after ceil(log2 n) levels. */
  lemma {:induction false} SplitDepthBound(oracle: Oracle, start: nat, items: seq<BatchItem>, attempt: nat, depth: nat)
    requires attempt < TRANSLATE_MAX_ATTEMPTS
    ensures depth <= Attempts(oracle, start, items, attempt, depth).depth <= depth + CeilLog2(|items|)
    decreases |items|, TRANSLATE_MAX_ATTEMPTS - attempt
  {
    var verdict := oracle(start, items);
    if verdict.TimedOut? && |items| > 1 {
      var mid := Midpoint(items);
      var left := Attempts(oracle, start + 1, items[..mid], 0, depth + 1);
      CeilLog2Monotone(|items| - mid, mid);
      SplitDepthBound(oracle, start + 1, items[..mid], 0, depth + 1);
      SplitDepthBound(oracle, start + 1 + left.prompts, items[mid..], 0, depth + 1);
    } else if verdict.Rejected? && attempt + 1 < TRANSLATE_MAX_ATTEMPTS {
      SplitDepthBound(oracle, start + 1, items, attempt + 1, depth);
    }
  }

  /** The value under `key` was sent by the provider in one of the given prompts. */
  /** The n-th reply was this error, or lacked a translation that the error names. */
  ghost predicate FailedWith(provider: Provider, n: nat, message: string) {
    match provider(n)
    case Fault(fault) => message == fault
    case Answer(fields) => exists key :: !HasTranslation(fields, key) && message == "missing translation for " + key
  }

  lemma {:induction false} JudgeFails(provider: Provider, n: nat, items: seq<BatchItem>)
    ensures match Judge(provider(n), items)
            case Translated(_) => true
            case TimedOut(message) => FailedWith(provider, n, message)
            case Rejected(message) => FailedWith(provider, n, message)
  {
    match provider(n)
    case Fault(_) =>
    case Answer(fields) =>
      if !AllTranslated(fields, items) {
        var key := FirstMissing(fields, items);
        assert !HasTranslation(fields, key);
      }
  }

  /** A batch that is given up fails with what its last prompt came to. */
  lemma {:induction false} FailureIsLast(
      provider: Provider, start: nat, items: seq<BatchItem>, attempt: nat, depth: nat)
    requires attempt < TRANSLATE_MAX_ATTEMPTS
    ensures var run := Attempts(Judged(provider), start, items, attempt, depth);
            && run.prompts > 0
            && (run.result.Failure? ==> FailedWith(provider, start + run.prompts - 1, run.result.error))
    decreases |items|, TRANSLATE_MAX_ATTEMPTS - attempt
  {
    var oracle := Judged(provider);
    hide Attempts, Halves, FailedWith, Judge, Midpoint;
    OneAttempt(oracle, start, items, attempt, depth);
    JudgeFails(provider, start, items);
    assert oracle(start, items) == Judge(provider(start), items);
    match oracle(start, items)
    case Translated(_) =>
    case TimedOut(_) =>
      if |items| > 1 {
        var mid := Midpoint(items);
        SplitAttempt(oracle, start, items, attempt, depth);
        var left := Attempts(oracle, start + 1, items[..mid], 0, depth + 1);
        FailureIsLast(provider, start + 1, items[..mid], 0, depth + 1);
        FailureIsLast(provider, start + 1 + left.prompts, items[mid..], 0, depth + 1);
      }
    case Rejected(_) =>
      if attempt + 1 < TRANSLATE_MAX_ATTEMPTS {
        FailureIsLast(provider, start + 1, items, attempt + 1, depth);
      }
  }

  ghost predicate SentDuring(provider: Provider, start: nat, end: nat, key: string, value: string) {
    exists n: nat | start <= n < end ::
      provider(n).Answer? && key in provider(n).fields && provider(n).fields[key] == JsonText(value)
  }

  ghost predicate Faithful(provider: Provider, start: nat, end: nat, items: seq<BatchItem>,
        values: map<string, string>) {
    && values.Keys == Keys(items)
    && (forall key | key in values ::
          !IsBlank(values[key]) && SentDuring(provider, start, end, key, values[key]))
  }

  /** A batch that returns has exactly its items' keys, each with a text that is
      not blank and that the provider sent for that key during this very run. */
  lemma {:induction false} SuccessfulBatch(provider: Provider, start: nat, items: seq<BatchItem>, depth: nat)
    requires Attempts(Judged(provider), start, items, 0, depth).result.Success?
    ensures var run := Attempts(Judged(provider), start, items, 0, depth);
            Faithful(provider, start, start + run.prompts, items, run.result.value)
  {
    forall n: nat, batch | Judged(provider)(n, batch).Translated?
      ensures Faithful(provider, n, n + 1, batch, Judged(provider)(n, batch).values)
    {
      JudgedFaithfully(provider, n, batch);
    }
    SuccessfulAttempts(provider, Judged(provider), start, items, 0, depth);
  }

  lemma {:induction false} SuccessfulAttempts(
      provider: Provider, oracle: Oracle, start: nat, items: seq<BatchItem>, attempt: nat, depth: nat)
    requires attempt < TRANSLATE_MAX_ATTEMPTS
    requires forall n: nat, batch | oracle(n, batch).Translated? ::
              Faithful(provider, n, n + 1, batch, oracle(n, batch).values)
    requires Attempts(oracle, start, items, attempt, depth).result.Success?
    ensures var run := Attempts(oracle, start, items, attempt, depth);
            Faithful(provider, start, start + run.prompts, items, run.result.value)
    decreases |items|, TRANSLATE_MAX_ATTEMPTS - attempt
  {
    hide Faithful;
    var verdict := oracle(start, items);
    if verdict.TimedOut? && |items| > 1 {
      var mid := Midpoint(items);
      var left := Attempts(oracle, start + 1, items[..mid], 0, depth + 1);
      var right := Attempts(oracle, start + 1 + left.prompts, items[mid..], 0, depth + 1);
      SuccessfulAttempts(provider, oracle, start + 1, items[..mid], 0, depth + 1);
      SuccessfulAttempts(provider, oracle, start + 1 + left.prompts, items[mid..], 0, depth + 1);
      MergedFaithfully(provider, start, start + 1 + left.prompts, start + 1 + left.prompts + right.prompts,
                       items, mid, left.result.value, right.result.value);
    } else if verdict.Rejected? && attempt + 1 < TRANSLATE_MAX_ATTEMPTS {
      var rest := Attempts(oracle, start + 1, items, attempt + 1, depth);
      SuccessfulAttempts(provider, oracle, start + 1, items, attempt + 1, depth);
      FaithfulFromEarlier(provider, start, start + 1 + rest.prompts, items, rest.result.value);
    }
  }

  lemma {:induction false} FaithfulFromEarlier(
      provider: Provider, start: nat, end: nat, items: seq<BatchItem>, values: map<string, string>)
    requires Faithful(provider, start + 1, end, items, values)
    ensures Faithful(provider, start, end, items, values)
  {
  }

  lemma {:induction false} JudgedFaithfully(provider: Provider, n: nat, items: seq<BatchItem>)
    requires Judge(provider(n), items).Translated?
    ensures Faithful(provider, n, n + 1, items, Judge(provider(n), items).values)
  {
    var values := Judge(provider(n), items).values;
    forall key ensures key in Keys(items) ==> key in values {
      KeysAreKeys(items, key);
    }
    forall key | key in values ensures SentDuring(provider, n, n + 1, key, values[key]) {
      assert provider(n).fields[key] == JsonText(values[key]);
    }
  }

  lemma {:induction false} MergedFaithfully(
      provider: Provider, start: nat, middle: nat, end: nat, items: seq<BatchItem>, mid: nat,
      left: map<string, string>, right: map<string, string>)
    requires mid <= |items| && start + 1 <= middle <= end
    requires Faithful(provider, start + 1, middle, items[..mid], left)
    requires Faithful(provider, middle, end, items[mid..], right)
    ensures Faithful(provider, start, end, items, left + right)
  {
    assert items == items[..mid] + items[mid..];
    KeysOfBoth(items[..mid], items[mid..]);
  }
}
