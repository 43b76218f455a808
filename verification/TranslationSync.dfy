/** One locale's sync (scripts/control-ui-i18n.ts, `syncLocale`).

    For each source string the run reuses a cached translation, a translation of
    the same text, or the existing one; the rest go to the provider, and what is
    left falls back to the existing text or to English. The model is the run as
    three loops over mutable maps, proved equal to a decision per key; the fixed
    point and the accounting are proved about those decisions. */
module TranslationSync {
  import opened Basics
  import opened TranslationBatches
  import opened BatchTranslation
  import opened TranslationMemory

  /** The flattened English strings, in file order, and the hash of their file. */
  datatype Source = Source(order: seq<string>, texts: map<string, string>, hash: string) {
    ghost predicate Valid() {
      Distinct(order) && (forall key :: key in order <==> key in texts)
    }
  }

  datatype Meta = Meta(
    fallbackKeys: seq<string>, generatedAt: string, locale: string, model: string, provider: string,
    sourceHash: string, totalKeys: int, translatedKeys: int, workflow: int)

  /** What a run reads and writes: the flattened locale, its metadata, its memory. */
  datatype Files = Files(flat: map<string, string>, meta: Option<Meta>, memory: Memory)

  /** The run's environment. Hashing, placeholder comparison and locale-aware
      sorting are parameters; `now` is the clock. */
  datatype Config = Config(
    locale: string, sourcePath: string, allowTranslate: bool, force: bool, authOptional: bool,
    budget: real, provider: string, model: string, now: string,
    hashText: string -> string,
    samePlaceholders: (string, string) -> bool,
    sortKeys: set<string> -> seq<string>)

  const WORKFLOW := 1

  function PreviousFallbacks(prev: Files): set<string> {
    if prev.meta.Some? then set key | key in prev.meta.value.fallbackKeys else {}
  }

  predicate ShouldReuseExistingTranslation(allowTranslate: bool, force: bool, isFallback: bool) {
    !isFallback || (!allowTranslate && !force)
  }

  datatype Decision =
    | Cached(value: string)
    | SameText(entry: Entry)
    | Existing(value: string)
    | Pending

  /** What becomes of one source string before the provider is asked. */
  function Decide(cfg: Config, prev: Files, key: string, text: string): Decision {
    var hash := cfg.hashText(text);
    var cached := prev.memory.Get(Segment(key, hash));
    var tmByTextHash := TextIndex(prev.memory.order, prev.memory.entries, cfg.locale);
    var shouldRefreshFallback := key in PreviousFallbacks(prev);
    var shouldReuse := ShouldReuseExistingTranslation(cfg.allowTranslate, cfg.force, shouldRefreshFallback);
    if cached.Some? && shouldReuse then Cached(cached.value.translated)
    else if hash in tmByTextHash && (shouldRefreshFallback || key !in prev.flat) then SameText(tmByTextHash[hash])
    else if key in prev.flat && shouldReuse then Existing(prev.flat[key])
    else Pending
  }

  /** The decisions for all keys, looked up one at a time. */
  ghost predicate IsDecided(cfg: Config, source: Source, prev: Files, decisions: map<string, Decision>, key: string) {
    key in source.texts && key in decisions && decisions[key] == Decide(cfg, prev, key, source.texts[key])
  }

  ghost predicate AreDecided(cfg: Config, source: Source, prev: Files, decisions: map<string, Decision>) {
    && decisions.Keys == source.texts.Keys
    && (forall key {:trigger IsDecided(cfg, source, prev, decisions, key)} | key in source.texts ::
          IsDecided(cfg, source, prev, decisions, key))
  }

  /** The value a completed run stores under the key. */
  function NextValue(
      cfg: Config, prev: Files, decision: Decision, translated: map<string, string>, key: string, text: string): string
  {
    match decision
    case Cached(value) => value
    case SameText(entry) => entry.translated
    case Existing(value) => value
    case Pending =>
      if key in translated then translated[key]
      else if key in prev.flat && !cfg.force then prev.flat[key]
      else text
  }

  /** Whether a completed run records the key as a fallback. */
  predicate IsNextFallback(
      cfg: Config, prev: Files, decision: Decision, translated: map<string, string>, key: string)
  {
    match decision
    case Cached(_) => key in PreviousFallbacks(prev)
    case SameText(_) => false
    case Existing(_) => key in PreviousFallbacks(prev)
    case Pending =>
      key !in translated && (key in prev.flat && !cfg.force ==> key in PreviousFallbacks(prev))
  }

  function CopiedEntry(cfg: Config, entry: Entry, key: string, text: string): Entry {
    entry.(cacheKey := Segment(key, cfg.hashText(text)), segmentId := key, sourcePath := cfg.sourcePath)
  }

  function FreshEntry(cfg: Config, key: string, text: string, value: string): Entry {
    var hash := cfg.hashText(text);
    Entry(Segment(key, hash), key, cfg.sourcePath, text, hash, "en", cfg.locale, value, cfg.provider, cfg.model,
        cfg.now)
  }

  /** The memory entry a run writes for the key, if any. */
  function Written(
      cfg: Config, decision: Decision, translated: map<string, string>, key: string, text: string): Option<Entry>
  {
    match decision
    case SameText(entry) => Some(CopiedEntry(cfg, entry, key, text))
    case Pending => if key in translated then Some(FreshEntry(cfg, key, text, translated[key])) else None
    case _ => None
  }

  /** All the entries written once the keys in `done` are handled. */
  function WrittenEntries(
      cfg: Config, source: Source, decisions: map<string, Decision>, translated: map<string, string>, done: set<string>)
    : map<string, Entry>
    requires done <= source.texts.Keys == decisions.Keys
  {
    map key | key in done && Written(cfg, decisions[key], translated, key, source.texts[key]).Some?
      :: Written(cfg, decisions[key], translated, key, source.texts[key]).value
  }

  function NextMeta(cfg: Config, source: Source, previous: Option<Meta>, fallbacks: set<string>): Meta {
    var sorted := cfg.sortKeys(fallbacks);
    var provider := if cfg.allowTranslate then cfg.provider else if previous.Some? then previous.value.provider else "";
    var model := if cfg.allowTranslate then cfg.model else if previous.Some? then previous.value.model else "";
    var translatedKeys := |source.order| - |sorted|;
    var semanticMetaChanged :=
      previous.None? || previous.value.locale != cfg.locale || previous.value.sourceHash != source.hash
      || previous.value.provider != provider || previous.value.model != model
      || previous.value.totalKeys != |source.order| || previous.value.translatedKeys != translatedKeys
      || previous.value.workflow != WORKFLOW || previous.value.fallbackKeys != sorted;
    Meta(sorted, if semanticMetaChanged then cfg.now else previous.value.generatedAt,
         cfg.locale, model, provider, source.hash, |source.order|, translatedKeys, WORKFLOW)
  }

  function NextFallbacks(cfg: Config, prev: Files, decisions: map<string, Decision>,
        translated: map<string, string>): set<string> {
    set key | key in decisions && IsNextFallback(cfg, prev, decisions[key], translated, key)
  }

  /** The locale map of a completed run. */
  function NextFlat(
      cfg: Config, source: Source, prev: Files, decisions: map<string, Decision>,
      translated: map<string, string>): map<string, string>
    requires source.texts.Keys == decisions.Keys
  {
    map key | key in source.texts :: NextValue(cfg, prev, decisions[key], translated, key, source.texts[key])
  }

  /** `next` is what a completed run leaves, `translated` being what it obtained
      from the provider: nothing without one, every pending key with one. */
  ghost predicate IsSync(
      cfg: Config, source: Source, prev: Files, decisions: map<string, Decision>, translated: map<string, string>,
      next: Files)
  {
    && AreDecided(cfg, source, prev, decisions)
    && (forall key :: key in translated <==> cfg.allowTranslate && key in decisions && decisions[key].Pending?)
    && (forall key | key in translated :: !IsBlank(translated[key]))
    && next.flat == NextFlat(cfg, source, prev, decisions, translated)
    && next.meta == Some(NextMeta(cfg, source, prev.meta, NextFallbacks(cfg, prev, decisions, translated)))
    && Overlaid(prev.memory, WrittenEntries(cfg, source, decisions, translated, source.texts.Keys), next.memory)
    && (forall key | key in next.flat :: cfg.samePlaceholders(source.texts[key], next.flat[key]))
  }

  ghost predicate SortsKeys(sort: set<string> -> seq<string>) {
    forall keys: set<string> :: |sort(keys)| == |keys| && (forall key :: key in sort(keys) <==> key in keys)
  }

  // ---------------------------------------------------------------- the run

  function ItemFor(cfg: Config, source: Source, key: string): BatchItem
    requires key in source.texts
  {
    var text := source.texts[key];
    BatchItem(Segment(key, cfg.hashText(text)), key, text, cfg.hashText(text))
  }

  /** `items` carry exactly the given pending keys of `done`. */
  ghost predicate ArePending(
      cfg: Config, source: Source, decisions: map<string, Decision>, done: set<string>, items: seq<BatchItem>)
    requires done <= source.texts.Keys == decisions.Keys
  {
    && (forall i | 0 <= i < |items| ::
          && items[i].key in done && decisions[items[i].key].Pending?
          && items[i] == ItemFor(cfg, source, items[i].key))
    && (forall key | key in done && decisions[key].Pending? :: key in Keys(items))
    && |items| == |PendingKeys(decisions, done)|
  }

  function PendingKeys(decisions: map<string, Decision>, done: set<string>): set<string> {
    set key | key in done && key in decisions && decisions[key].Pending?
  }

  /** What the first loop has filled in once the keys in `done` are decided. */
  function ReusedFlat(
      cfg: Config, source: Source, prev: Files, decisions: map<string, Decision>, done: set<string>): map<string,
      string>
    requires done <= source.texts.Keys == decisions.Keys
  {
    map key | key in done && !decisions[key].Pending?
      :: NextValue(cfg, prev, decisions[key], map[], key, source.texts[key])
  }

  function ReusedFallbacks(cfg: Config, prev: Files, decisions: map<string, Decision>, done: set<string>): set<string>
    requires done <= decisions.Keys
  {
    set key | key in done && !decisions[key].Pending? && IsNextFallback(cfg, prev, decisions[key], map[], key)
  }

  /** The pending items of the given keys, in the same order. */
  function PendingItems(cfg: Config, source: Source, decisions: map<string, Decision>, order: seq<string>)
    : seq<BatchItem>
    requires source.texts.Keys == decisions.Keys && forall i | 0 <= i < |order| :: order[i] in source.texts
  {
    if order == [] then []
    else
      var key := order[|order| - 1];
      PendingItems(cfg, source, decisions, order[..|order| - 1])
      + if decisions[key].Pending? then [ItemFor(cfg, source, key)] else []
  }

  lemma {:induction false} PendingItemsOneMore(
      cfg: Config, source: Source, decisions: map<string, Decision>, order: seq<string>, n: nat)
    requires source.texts.Keys == decisions.Keys && forall i | 0 <= i < |order| :: order[i] in source.texts
    requires n < |order|
    ensures PendingItems(cfg, source, decisions, order[..n + 1])
         == PendingItems(cfg, source, decisions, order[..n])
            + if decisions[order[n]].Pending? then [ItemFor(cfg, source, order[n])] else []
  {
    hide ItemFor;
    assert order[..n + 1][..n] == order[..n];
  }

  function Elements<T>(s: seq<T>): set<T> {
    set x | x in s
  }

  /** What the first loop makes of one key; `memory` may already hold other keys' entries. */
  method DecideKey(
      cfg: Config, prev: Files, memory: Memory, byTextHash: map<string, Entry>, key: string, text: string)
    returns (decision: Decision)
    requires memory.Get(Segment(key, cfg.hashText(text))) == prev.memory.Get(Segment(key, cfg.hashText(text)))
    requires byTextHash == TextIndex(prev.memory.order, prev.memory.entries, cfg.locale)
    ensures decision == Decide(cfg, prev, key, text)
  {
    var textHash := cfg.hashText(text);
    var cached := memory.Get(Segment(key, textHash));
    var shouldRefreshFallback := key in PreviousFallbacks(prev);
    var shouldReuse := ShouldReuseExistingTranslation(cfg.allowTranslate, cfg.force, shouldRefreshFallback);
    if cached.Some? && shouldReuse {
      return Cached(cached.value.translated);
    }
    if textHash in byTextHash && (shouldRefreshFallback || key !in prev.flat) {
      return SameText(byTextHash[textHash]);
    }
    if key in prev.flat && shouldReuse {
      return Existing(prev.flat[key]);
    }
    return Pending;
  }

  lemma {:induction false} SameTextIsKeepable(cfg: Config, prev: Files, key: string, text: string)
    requires Decide(cfg, prev, key, text).SameText?
    ensures Usable(Decide(cfg, prev, key, text).entry, cfg.locale)
    ensures Decide(cfg, prev, key, text).entry.textHash == cfg.hashText(text)
  {
    TextIndexFinds(prev.memory.order, prev.memory.entries, cfg.locale, cfg.hashText(text));
  }

  lemma {:induction false} ReusedOneMore(
      cfg: Config, source: Source, prev: Files, decisions: map<string, Decision>, done: set<string>, key: string)
    requires done <= source.texts.Keys == decisions.Keys && key in source.texts
    ensures ReusedFlat(cfg, source, prev, decisions, done + {key})
         == if decisions[key].Pending? then ReusedFlat(cfg, source, prev, decisions, done)
            else ReusedFlat(cfg, source, prev, decisions,
                done)[key := NextValue(cfg, prev, decisions[key], map[], key, source.texts[key])]
    ensures ReusedFallbacks(cfg, prev, decisions, done + {key})
         == if !decisions[key].Pending? && IsNextFallback(cfg, prev, decisions[key], map[], key)
            then ReusedFallbacks(cfg, prev, decisions, done) + {key} else ReusedFallbacks(cfg, prev, decisions, done)
  {
  }

  lemma {:induction false} PendingOneMore(
      cfg: Config, source: Source, decisions: map<string, Decision>, done: set<string>, items: seq<BatchItem>,
      key: string)
    requires done <= source.texts.Keys == decisions.Keys && key in source.texts && key !in done
    requires ArePending(cfg, source, decisions, done, items)
    ensures ArePending(cfg, source, decisions, done + {key},
      if decisions[key].Pending? then items + [ItemFor(cfg, source, key)] else items)
  {
    var item := ItemFor(cfg, source, key);
    assert (items + [item])[..|items|] == items;
    assert Keys(items + [item]) == Keys(items) + {key};
    PendingKeysOneMore(decisions, done, key);
    hide Keys, PendingKeys, ItemFor;
  }

  lemma {:induction false} PendingKeysOneMore(decisions: map<string, Decision>, done: set<string>, key: string)
    requires key in decisions && key !in done
    ensures |PendingKeys(decisions, done + {key})| == |PendingKeys(decisions, done)| + if decisions[key].Pending? then
              1 else 0
  {
    assert PendingKeys(decisions, done + {key})
        == PendingKeys(decisions, done) + if decisions[key].Pending? then {key} else {};
  }

  lemma {:induction false} WrittenGrows(
      cfg: Config, source: Source, decisions: map<string, Decision>, done: set<string>, key: string)
    requires done <= source.texts.Keys == decisions.Keys && key in source.texts && key !in done
    ensures var entry := Written(cfg, decisions[key], map[], key, source.texts[key]);
            var written := WrittenEntries(cfg, source, decisions, map[], done);
            && key !in written
            && WrittenEntries(cfg, source, decisions, map[], done + {key})
               == if entry.Some? then written[key := entry.value] else written
  {
  }

  lemma {:induction false} WrittenIsKeepable(cfg: Config, source: Source, prev: Files, decision: Decision, key: string)
    requires key in source.texts && decision == Decide(cfg, prev, key, source.texts[key])
    ensures var entry := Written(cfg, decision, map[], key, source.texts[key]);
            entry.Some? ==>
              Keepable(entry.value) && entry.value.cacheKey == Segment(key, cfg.hashText(source.texts[key]))
  {
    if decision.SameText? {
      SameTextIsKeepable(cfg, prev, key, source.texts[key]);
    }
  }

  lemma {:induction false} WrittenOneMore(
      cfg: Config, source: Source, prev: Files, decisions: map<string, Decision>, done: set<string>, memory: Memory,
      key: string)
    requires done <= source.texts.Keys == decisions.Keys && key in source.texts && key !in done
    requires IsDecided(cfg, source, prev, decisions, key)
    requires Overlaid(prev.memory, WrittenEntries(cfg, source, decisions, map[], done), memory)
    ensures var entry := Written(cfg, decisions[key], map[], key, source.texts[key]);
            Overlaid(prev.memory, WrittenEntries(cfg, source, decisions, map[], done + {key}),
                     if entry.Some? then memory.Put(entry.value) else memory)
  {
    var entry := Written(cfg, decisions[key], map[], key, source.texts[key]);
    var written := WrittenEntries(cfg, source, decisions, map[], done);
    WrittenGrows(cfg, source, decisions, done, key);
    WrittenIsKeepable(cfg, source, prev, decisions[key], key);
    if entry.Some? {
      PutOverlays(prev.memory, written, memory, key, entry.value);
    }
  }

  lemma {:induction false} NothingDone(cfg: Config, source: Source, prev: Files, decisions: map<string, Decision>)
    requires source.texts.Keys == decisions.Keys && prev.memory.Loaded()
    ensures ReusedFlat(cfg, source, prev, decisions, {}) == map[]
    ensures ReusedFallbacks(cfg, prev, decisions, {}) == {}
    ensures ArePending(cfg, source, decisions, {}, [])
    ensures Overlaid(prev.memory, WrittenEntries(cfg, source, decisions, map[], {}), prev.memory)
  {
    assert WrittenEntries(cfg, source, decisions, map[], {}) == map[];
    assert PendingKeys(decisions, {}) == {};
  }

  lemma {:induction false} NotYetWritten(
      cfg: Config, source: Source, prev: Files, decisions: map<string, Decision>, done: set<string>, memory: Memory,
      key: string)
    requires done <= source.texts.Keys == decisions.Keys && key in source.texts && key !in done
    requires Overlaid(prev.memory, WrittenEntries(cfg, source, decisions, map[], done), memory)
    ensures var at := Segment(key, cfg.hashText(source.texts[key])); memory.Get(at) == prev.memory.Get(at)
  {
  }

  /** One turn of the first loop. */
  method ReuseKey(
      cfg: Config, source: Source, prev: Files, byTextHash: map<string, Entry>, key: string,
      flatSoFar: map<string, string>, pendingSoFar: seq<BatchItem>, fallbacksSoFar: seq<string>, memorySoFar: Memory)
    returns (nextFlat: map<string, string>, pending: seq<BatchItem>, fallbackKeys: seq<string>, memory: Memory)
    requires key in source.texts
    requires var at := Segment(key, cfg.hashText(source.texts[key])); memorySoFar.Get(at) == prev.memory.Get(at)
    requires byTextHash == TextIndex(prev.memory.order, prev.memory.entries, cfg.locale)
    ensures var text, decision := source.texts[key], Decide(cfg, prev, key, source.texts[key]);
            && nextFlat == (if decision.Pending? then flatSoFar
                            else flatSoFar[key := NextValue(cfg, prev, decision, map[], key, text)])
            && pending == (if decision.Pending? then pendingSoFar + [ItemFor(cfg, source, key)] else pendingSoFar)
            && fallbackKeys == (if !decision.Pending? && IsNextFallback(cfg, prev, decision, map[], key)
                                then fallbacksSoFar + [key] else fallbacksSoFar)
            && memory == (if Written(cfg, decision, map[], key, text).Some?
                          then memorySoFar.Put(Written(cfg, decision, map[], key, text).value) else memorySoFar)
  {
    nextFlat, pending, fallbackKeys, memory := flatSoFar, pendingSoFar, fallbacksSoFar, memorySoFar;
    var text := source.texts[key];
    var decision := DecideKey(cfg, prev, memory, byTextHash, key, text);
    match decision {
      case Cached(value) =>
        nextFlat := nextFlat[key := value];
        if key in PreviousFallbacks(prev) { fallbackKeys := fallbackKeys + [key]; }
      case SameText(entry) =>
        nextFlat := nextFlat[key := entry.translated];
        memory := memory.Put(CopiedEntry(cfg, entry, key, text));
      case Existing(value) =>
        nextFlat := nextFlat[key := value];
        if key in PreviousFallbacks(prev) { fallbackKeys := fallbackKeys + [key]; }
      case Pending =>
        pending := pending + [ItemFor(cfg, source, key)];
    }
  }

  /** What the first loop has come to after the first n keys. */
  ghost predicate ReusedUpTo(
      cfg: Config, source: Source, prev: Files, decisions: map<string, Decision>, n: nat,
      nextFlat: map<string, string>, pending: seq<BatchItem>, fallbackKeys: seq<string>, memory: Memory)
    requires source.Valid() && source.texts.Keys == decisions.Keys && n <= |source.order|
  {
    var done := Elements(source.order[..n]);
    && nextFlat == ReusedFlat(cfg, source, prev, decisions, done)
    && Elements(fallbackKeys) == ReusedFallbacks(cfg, prev, decisions, done)
    && ArePending(cfg, source, decisions, done, pending)
    && pending == PendingItems(cfg, source, decisions, source.order[..n])
    && Overlaid(prev.memory, WrittenEntries(cfg, source, decisions, map[], done), memory)
  }

  lemma {:induction false} NothingReused(cfg: Config, source: Source, prev: Files, decisions: map<string, Decision>)
    requires source.Valid() && source.texts.Keys == decisions.Keys && prev.memory.Loaded()
    ensures ReusedUpTo(cfg, source, prev, decisions, 0, map[], [], [], prev.memory)
  {
    NothingDone(cfg, source, prev, decisions);
    assert Elements(source.order[..0]) == {};
    assert Elements<string>([]) == {};
    hide ReusedFlat, ReusedFallbacks, WrittenEntries, ArePending, Overlaid;
  }

  lemma {:induction false} OneMoreReused(
      cfg: Config, source: Source, prev: Files, decisions: map<string, Decision>, n: nat,
      nextFlat: map<string, string>, pending: seq<BatchItem>, fallbackKeys: seq<string>, memory: Memory)
    requires source.Valid() && AreDecided(cfg, source, prev, decisions) && n < |source.order|
    requires ReusedUpTo(cfg, source, prev, decisions, n, nextFlat, pending, fallbackKeys, memory)
    ensures var key := source.order[n];
            var at := Segment(key, cfg.hashText(source.texts[key]));
            key in source.texts && memory.Get(at) == prev.memory.Get(at)
    ensures var key, text := source.order[n], source.texts[source.order[n]];
            var decision := Decide(cfg, prev, key, text);
            ReusedUpTo(cfg, source, prev, decisions, n + 1,
                       if decision.Pending? then nextFlat
                       else nextFlat[key := NextValue(cfg, prev, decision, map[], key, text)],
                       if decision.Pending? then pending + [ItemFor(cfg, source, key)] else pending,
                       if !decision.Pending? && IsNextFallback(cfg, prev, decision, map[], key)
                       then fallbackKeys + [key] else fallbackKeys,
                       if Written(cfg, decision, map[], key, text).Some?
                       then memory.Put(Written(cfg, decision, map[], key, text).value) else memory)
  {
    hide ReusedFlat, ReusedFallbacks, WrittenEntries, ArePending, Overlaid, ItemFor, Decide, NextValue, Written,
      IsNextFallback, PendingItems, Elements, Memory.Put, Memory.Get;
    var key, done := source.order[n], Elements(source.order[..n]);
    DoneOneMore(source, n);
    assert IsDecided(cfg, source, prev, decisions, key);
    NotYetWritten(cfg, source, prev, decisions, done, memory, key);
    ReusedOneMore(cfg, source, prev, decisions, done, key);
    PendingOneMore(cfg, source, decisions, done, pending, key);
    PendingItemsOneMore(cfg, source, decisions, source.order, n);
    WrittenOneMore(cfg, source, prev, decisions, done, memory, key);
    ElementsOneMore(fallbackKeys, key);
    assert pending + [] == pending;
  }

  lemma {:induction false} DoneOneMore(source: Source, n: nat)
    requires source.Valid() && n < |source.order|
    ensures source.order[n] in source.texts
    ensures source.order[n] !in Elements(source.order[..n]) && Elements(source.order[..n]) <= source.texts.Keys
    ensures Elements(source.order[..n + 1]) == Elements(source.order[..n]) + {source.order[n]}
  {
    assert source.order[..n + 1] == source.order[..n] + [source.order[n]];
  }

  lemma {:induction false} ElementsOneMore<T>(s: seq<T>, x: T)
    ensures Elements(s + [x]) == Elements(s) + {x}
  {
  }

  lemma {:induction false} AllReused(
      cfg: Config, source: Source, prev: Files, decisions: map<string, Decision>,
      nextFlat: map<string, string>, pending: seq<BatchItem>, fallbackKeys: seq<string>, memory: Memory)
    requires source.Valid() && source.texts.Keys == decisions.Keys
    requires ReusedUpTo(cfg, source, prev, decisions, |source.order|, nextFlat, pending, fallbackKeys, memory)
    ensures nextFlat == ReusedFlat(cfg, source, prev, decisions, source.texts.Keys)
    ensures Elements(fallbackKeys) == ReusedFallbacks(cfg, prev, decisions, source.texts.Keys)
    ensures ArePending(cfg, source, decisions, source.texts.Keys, pending)
    ensures pending == PendingItems(cfg, source, decisions, source.order)
    ensures Overlaid(prev.memory, WrittenEntries(cfg, source, decisions, map[], source.texts.Keys), memory)
  {
    assert source.order[..|source.order|] == source.order;
    assert Elements(source.order) == source.texts.Keys;
    hide ReusedFlat, ReusedFallbacks, WrittenEntries, ArePending, Overlaid, PendingItems, Elements;
  }

  /** The first loop: decide every key, in source order. */
  method ReuseTranslations(cfg: Config, source: Source, prev: Files, ghost decisions: map<string, Decision>)
    returns (nextFlat: map<string, string>, pending: seq<BatchItem>, fallbackKeys: seq<string>, memory: Memory)
    requires source.Valid() && prev.memory.Loaded() && AreDecided(cfg, source, prev, decisions)
    ensures nextFlat == ReusedFlat(cfg, source, prev, decisions, source.texts.Keys)
    ensures Elements(fallbackKeys) == ReusedFallbacks(cfg, prev, decisions, source.texts.Keys)
    ensures ArePending(cfg, source, decisions, source.texts.Keys, pending)
    ensures pending == PendingItems(cfg, source, decisions, source.order)
    ensures Overlaid(prev.memory, WrittenEntries(cfg, source, decisions, map[], source.texts.Keys), memory)
  {
    hide ReusedUpTo, ReusedFlat, ReusedFallbacks, WrittenEntries, ArePending, Overlaid, ItemFor, Decide, NextValue,
      Written, IsNextFallback, PendingItems, Elements, TextIndex;
    memory := prev.memory;
    var byTextHash := BuildTranslationMemoryByTextHash(prev.memory, cfg.locale);
    nextFlat, pending, fallbackKeys := map[], [], [];
    NothingReused(cfg, source, prev, decisions);
    for n := 0 to |source.order|
      invariant ReusedUpTo(cfg, source, prev, decisions, n, nextFlat, pending, fallbackKeys, memory)
    {
      OneMoreReused(cfg, source, prev, decisions, n, nextFlat, pending, fallbackKeys, memory);
      nextFlat, pending, fallbackKeys, memory :=
        ReuseKey(cfg, source, prev, byTextHash, source.order[n], nextFlat, pending, fallbackKeys, memory);
    }
    AllReused(cfg, source, prev, decisions, nextFlat, pending, fallbackKeys, memory);
  }

  lemma {:induction false} TranslatedGrows(
      cfg: Config, source: Source, decisions: map<string, Decision>, translated: map<string, string>, key: string,
      value: string)
    requires source.texts.Keys == decisions.Keys && key in source.texts && decisions[key].Pending?
    ensures var written := WrittenEntries(cfg, source, decisions, translated, source.texts.Keys);
            && (key in written ==> written[key].cacheKey == Segment(key, cfg.hashText(source.texts[key])))
            && WrittenEntries(cfg, source, decisions, translated[key := value], source.texts.Keys)
               == written[key := FreshEntry(cfg, key, source.texts[key], value)]
  {
  }

  lemma {:induction false} TranslatedOneMore(
      cfg: Config, source: Source, prev: Files, decisions: map<string, Decision>,
      translated: map<string, string>, memory: Memory, key: string, value: string)
    requires source.texts.Keys == decisions.Keys && key in source.texts && decisions[key].Pending? && !IsBlank(value)
    requires Overlaid(prev.memory, WrittenEntries(cfg, source, decisions, translated, source.texts.Keys), memory)
    ensures Overlaid(prev.memory, WrittenEntries(cfg, source, decisions, translated[key := value], source.texts.Keys),
                     memory.Put(FreshEntry(cfg, key, source.texts[key], value)))
  {
    var written := WrittenEntries(cfg, source, decisions, translated, source.texts.Keys);
    TranslatedGrows(cfg, source, decisions, translated, key, value);
    PutOverlays(prev.memory, written, memory, key, FreshEntry(cfg, key, source.texts[key], value));
  }

  ghost predicate AllIn(items: seq<BatchItem>, values: map<string, string>) {
    forall i | 0 <= i < |items| :: items[i].key in values
  }

  /** The memory after the batch's translations are written, in batch order. */
  function PutBatch(cfg: Config, batch: seq<BatchItem>, values: map<string, string>, memory: Memory): Memory
    requires AllIn(batch, values)
  {
    if batch == [] then memory
    else
      var last := batch[|batch| - 1];
      PutBatch(cfg, batch[..|batch| - 1], values, memory).Put(FreshEntry(cfg, last.key, last.text, values[last.key]))
  }

  function Restricted(values: map<string, string>, keys: set<string>): map<string, string> {
    map key | key in keys && key in values :: values[key]
  }

  lemma {:induction false} RecordNothing(cfg: Config, batch: seq<BatchItem>, values: map<string, string>,
        memory: Memory)
    ensures Restricted(values, Keys(batch[..0])) == map[] && PutBatch(cfg, batch[..0], values, memory) == memory
  {
  }

  lemma {:induction false} RecordOneMore(cfg: Config, batch: seq<BatchItem>, n: nat, values: map<string, string>,
        memory: Memory)
    requires n < |batch| && AllIn(batch, values)
    ensures Restricted(values, Keys(batch[..n + 1]))
         == Restricted(values, Keys(batch[..n]))[batch[n].key := values[batch[n].key]]
    ensures PutBatch(cfg, batch[..n + 1], values, memory)
         == PutBatch(cfg, batch[..n], values,
           memory).Put(FreshEntry(cfg, batch[n].key, batch[n].text, values[batch[n].key]))
  {
    hide FreshEntry, Memory.Put;
    assert batch[..n + 1][..n] == batch[..n];
  }

  /** Stores one translated batch in the new locale map and in the memory. */
  method RecordBatch(
      cfg: Config, batch: seq<BatchItem>, values: map<string, string>, flatSoFar: map<string, string>,
      memorySoFar: Memory)
    returns (nextFlat: map<string, string>, memory: Memory)
    requires AllIn(batch, values)
    ensures nextFlat == flatSoFar + Restricted(values, Keys(batch))
    ensures memory == PutBatch(cfg, batch, values, memorySoFar)
  {
    nextFlat, memory := flatSoFar, memorySoFar;
    RecordNothing(cfg, batch, values, memorySoFar);
    hide Restricted, PutBatch, Keys, FreshEntry, Memory.Put;
    for n := 0 to |batch|
      invariant nextFlat == flatSoFar + Restricted(values, Keys(batch[..n]))
      invariant memory == PutBatch(cfg, batch[..n], values, memorySoFar)
    {
      var item := batch[n];
      RecordOneMore(cfg, batch, n, values, memorySoFar);
      nextFlat := nextFlat[item.key := values[item.key]];
      memory := memory.Put(FreshEntry(cfg, item.key, item.text, values[item.key]));
    }
    assert batch[..|batch|] == batch;
  }

  ghost predicate PendingItem(cfg: Config, source: Source, decisions: map<string, Decision>, item: BatchItem)
    requires source.texts.Keys == decisions.Keys
  {
    item.key in decisions && decisions[item.key].Pending? && item == ItemFor(cfg, source, item.key)
  }

  lemma {:induction false} IsPendingItem(cfg: Config, source: Source, decisions: map<string, Decision>, item: BatchItem)
    requires source.texts.Keys == decisions.Keys && PendingItem(cfg, source, decisions, item)
    ensures item.key in decisions && decisions[item.key].Pending? && item == ItemFor(cfg, source, item.key)
  {
  }

  lemma {:induction false} PutOnTop(m: map<string, string>, more: map<string, string>, key: string, value: string)
    ensures (m + more)[key := value] == m + more[key := value]
  {
  }

  lemma {:induction false} BatchOverlays(
      cfg: Config, source: Source, prev: Files, decisions: map<string, Decision>, batch: seq<BatchItem>,
      values: map<string, string>, translated: map<string, string>, memory: Memory)
    requires source.texts.Keys == decisions.Keys && AllIn(batch, values)
    requires forall key | key in values :: !IsBlank(values[key])
    requires forall i | 0 <= i < |batch| :: PendingItem(cfg, source, decisions, batch[i])
    requires Overlaid(prev.memory, WrittenEntries(cfg, source, decisions, translated, source.texts.Keys), memory)
    ensures Overlaid(prev.memory,
      WrittenEntries(cfg, source, decisions, translated + Restricted(values, Keys(batch)), source.texts.Keys),
      PutBatch(cfg, batch, values, memory))
  {
    hide Overlaid, WrittenEntries, Restricted, PutBatch, Keys, PendingItem;
    if batch == [] {
      RecordNothing(cfg, batch, values, memory);
      assert batch[..0] == batch;
      assert translated + map[] == translated;
    } else {
      var n := |batch| - 1;
      var last, before := batch[n], batch[..n];
      assert PendingItem(cfg, source, decisions, last);
      IsPendingItem(cfg, source, decisions, last);
      BatchOverlays(cfg, source, prev, decisions, before, values, translated, memory);
      RecordOneMore(cfg, batch, n, values, memory);
      assert batch[..n + 1] == batch;
      var so := translated + Restricted(values, Keys(before));
      PutOnTop(translated, Restricted(values, Keys(before)), last.key, values[last.key]);
      TranslatedOneMore(cfg, source, prev, decisions, so, PutBatch(cfg, before, values, memory), last.key,
          values[last.key]);
    }
  }

  lemma {:induction false} FaithfulBoth(
      provider: Provider, middle: nat, end: nat, a: seq<BatchItem>, b: seq<BatchItem>,
      left: map<string, string>, right: map<string, string>)
    requires middle <= end
    requires Faithful(provider, 0, middle, a, left) && Faithful(provider, middle, end, b, right)
    ensures Faithful(provider, 0, end, a + b, left + right)
  {
    KeysOfBoth(a, b);
  }

  /** Translates one packed batch: what it costs and what it returns. */
  method TranslateOne(batch: seq<BatchItem>, budget: real, start: nat, provider: Provider)
    returns (result: Result<map<string, string>, string>, prompts: nat)
    requires LegalBatch(batch, budget)
    ensures 0 < prompts <= 4 * |batch| - 2
    ensures result.Failure? ==> FailedWith(provider, start + prompts - 1, result.error)
    ensures result.Success? ==>
              Faithful(provider, start, start + prompts, batch, result.value) && AllIn(batch, result.value)
  {
    var depth;
    result, prompts, depth := TranslateBatch(provider, start, batch, 0);
    PromptBound(Judged(provider), start, batch, 0, 0);
    FailureIsLast(provider, start, batch, 0, 0);
    if result.Success? {
      SuccessfulBatch(provider, start, batch, 0);
      forall i | 0 <= i < |batch| ensures batch[i].key in result.value {
        KeysAreKeys(batch, batch[i].key);
      }
    }
  }

  lemma {:induction false} BatchIsPending(
      cfg: Config, source: Source, decisions: map<string, Decision>, pending: seq<BatchItem>,
      before: seq<BatchItem>, batch: seq<BatchItem>, after: seq<BatchItem>)
    requires source.texts.Keys == decisions.Keys && pending == before + batch + after
    requires ArePending(cfg, source, decisions, source.texts.Keys, pending)
    ensures forall i | 0 <= i < |batch| :: PendingItem(cfg, source, decisions, batch[i])
  {
    forall i | 0 <= i < |batch| ensures PendingItem(cfg, source, decisions, batch[i]) {
      assert pending[|before| + i] == batch[i];
    }
  }

  lemma {:induction false} FaithfulToNothing(provider: Provider)
    ensures Faithful(provider, 0, 0, [], map[])
  {
  }

  lemma {:induction false} BatchTranslated(
      cfg: Config, source: Source, prev: Files, decisions: map<string, Decision>, pending: seq<BatchItem>,
      sent: seq<BatchItem>, batch: seq<BatchItem>, after: seq<BatchItem>, provider: Provider, prompts: nat, used: nat,
      translated: map<string, string>, values: map<string, string>, memory: Memory)
    requires source.texts.Keys == decisions.Keys && pending == sent + batch + after
    requires ArePending(cfg, source, decisions, source.texts.Keys, pending)
    requires Faithful(provider, 0, prompts, sent, translated)
    requires Faithful(provider, prompts, prompts + used, batch, values) && AllIn(batch, values)
    requires Overlaid(prev.memory, WrittenEntries(cfg, source, decisions, translated, source.texts.Keys), memory)
    ensures Faithful(provider, 0, prompts + used, sent + batch, translated + values)
    ensures Restricted(values, Keys(batch)) == values
    ensures Overlaid(prev.memory, WrittenEntries(cfg, source, decisions, translated + values, source.texts.Keys),
                     PutBatch(cfg, batch, values, memory))
  {
    hide Overlaid, WrittenEntries, PutBatch, ArePending, PendingItem, AllIn, Keys;
    assert Restricted(values, Keys(batch)) == values;
    assert forall key | key in values :: !IsBlank(values[key]);
    hide Faithful, Restricted, IsBlank;
    FaithfulBoth(provider, prompts, prompts + used, sent, batch, translated, values);
    BatchIsPending(cfg, source, decisions, pending, sent, batch, after);
    BatchOverlays(cfg, source, prev, decisions, batch, values, translated, memory);
  }

  /** After the batches `sent`: what they cost, and what stands in the locale map and in
      the memory. */
  ghost predicate Sent(
      cfg: Config, source: Source, prev: Files, decisions: map<string, Decision>, reused: map<string, string>,
      provider: Provider, sent: seq<BatchItem>, prompts: nat, translated: map<string, string>,
      nextFlat: map<string, string>, memory: Memory)
    requires source.texts.Keys == decisions.Keys
  {
    && prompts <= 4 * |sent|
    && Faithful(provider, 0, prompts, sent, translated)
    && nextFlat == reused + translated
    && Overlaid(prev.memory, WrittenEntries(cfg, source, decisions, translated, source.texts.Keys), memory)
  }

  lemma {:induction false} NothingSent(
      cfg: Config, source: Source, prev: Files, decisions: map<string, Decision>, reused: map<string, string>,
      provider: Provider, memory: Memory)
    requires source.texts.Keys == decisions.Keys
    requires Overlaid(prev.memory, WrittenEntries(cfg, source, decisions, map[], source.texts.Keys), memory)
    ensures Sent(cfg, source, prev, decisions, reused, provider, [], 0, map[], reused, memory)
  {
    FaithfulToNothing(provider);
    hide Faithful, Overlaid, WrittenEntries;
    assert reused + map[] == reused;
  }

  lemma {:induction false} SentMeans(
      cfg: Config, source: Source, prev: Files, decisions: map<string, Decision>, reused: map<string, string>,
      provider: Provider, sent: seq<BatchItem>, prompts: nat, translated: map<string, string>,
      nextFlat: map<string, string>, memory: Memory)
    requires source.texts.Keys == decisions.Keys
    ensures Sent(cfg, source, prev, decisions, reused, provider, sent, prompts, translated, nextFlat, memory) <==>
              && prompts <= 4 * |sent| && Faithful(provider, 0, prompts, sent, translated)
              && nextFlat == reused + translated
              && Overlaid(prev.memory, WrittenEntries(cfg, source, decisions, translated, source.texts.Keys), memory)
  {
  }

  lemma {:induction false} BatchSent(
      cfg: Config, source: Source, prev: Files, decisions: map<string, Decision>, reused: map<string, string>,
      provider: Provider, pending: seq<BatchItem>, sent: seq<BatchItem>, batch: seq<BatchItem>, after: seq<BatchItem>,
      prompts: nat, used: nat, translated: map<string, string>, values: map<string, string>,
      nextFlat: map<string, string>, memory: Memory)
    requires source.texts.Keys == decisions.Keys && pending == sent + batch + after
    requires ArePending(cfg, source, decisions, source.texts.Keys, pending)
    requires Sent(cfg, source, prev, decisions, reused, provider, sent, prompts, translated, nextFlat, memory)
    requires used <= 4 * |batch| && Faithful(provider, prompts, prompts + used, batch, values) && AllIn(batch, values)
    ensures Sent(cfg, source, prev, decisions, reused, provider, sent + batch, prompts + used, translated + values,
                 nextFlat + Restricted(values, Keys(batch)), PutBatch(cfg, batch, values, memory))
  {
    hide *;
    SentMeans(cfg, source, prev, decisions, reused, provider, sent, prompts, translated, nextFlat, memory);
    BatchTranslated(cfg, source, prev, decisions, pending, sent, batch, after, provider, prompts, used,
                    translated, values, memory);
    assert reused + translated + values == reused + (translated + values);
    SentMeans(cfg, source, prev, decisions, reused, provider, sent + batch, prompts + used, translated + values,
              nextFlat + values, PutBatch(cfg, batch, values, memory));
  }

  /** The batches still to send, one at a time. */
  lemma {:induction false} NextBatch(batches: seq<seq<BatchItem>>, pending: seq<BatchItem>, budget: real,
        sent: seq<BatchItem>, b: nat)
    requires IsPacking(batches, pending, budget) && b < |batches|
    requires sent + Concat(batches[b..]) == pending
    ensures LegalBatch(batches[b], budget)
    ensures sent + batches[b] + Concat(batches[b + 1..]) == pending
    ensures (sent + batches[b]) + Concat(batches[b + 1..]) == pending
  {
    assert batches[b..][1..] == batches[b + 1..];
  }

  lemma {:induction false} AllBatches(batches: seq<seq<BatchItem>>, pending: seq<BatchItem>, budget: real)
    requires IsPacking(batches, pending, budget)
    ensures [] + Concat(batches[0..]) == pending
    ensures pending == [] ==> batches == []
  {
    assert batches[0..] == batches;
    assert batches != [] ==> LegalBatch(batches[0], budget);
  }

  lemma {:induction false} NoBatchLeft(batches: seq<seq<BatchItem>>, sent: seq<BatchItem>)
    ensures sent + Concat(batches[|batches|..]) == sent
  {
  }

  /** The provider phase: pack the pending strings, translate and record each batch. */
  method TranslatePending(
      cfg: Config, source: Source, prev: Files, ghost decisions: map<string, Decision>, pending: seq<BatchItem>,
      reused: map<string, string>, memorySoFar: Memory, provider: Provider)
    returns (failure: Option<string>, nextFlat: map<string, string>, memory: Memory, prompts: nat,
             ghost translated: map<string, string>)
    requires source.texts.Keys == decisions.Keys
    requires ArePending(cfg, source, decisions, source.texts.Keys, pending)
    requires Overlaid(prev.memory, WrittenEntries(cfg, source, decisions, map[], source.texts.Keys), memorySoFar)
    ensures prompts <= 4 * |pending|
    ensures pending == [] ==> failure.None?
    ensures failure.Some? ==> prompts > 0 && FailedWith(provider, prompts - 1, failure.value)
    ensures failure.None? ==>
              && Faithful(provider, 0, prompts, pending, translated)
              && nextFlat == reused + translated
              && Overlaid(prev.memory, WrittenEntries(cfg, source, decisions, translated, source.texts.Keys), memory)
  {
    hide *;
    failure, nextFlat, memory, prompts, translated := None, reused, memorySoFar, 0, map[];
    var batches := BuildTranslationBatches(pending, cfg.budget);
    AllBatches(batches, pending, cfg.budget);
    ghost var sent: seq<BatchItem> := [];
    NothingSent(cfg, source, prev, decisions, reused, provider, memory);
    for b := 0 to |batches|
      invariant sent + Concat(batches[b..]) == pending
      invariant Sent(cfg, source, prev, decisions, reused, provider, sent, prompts, translated, nextFlat, memory)
    {
      var batch := batches[b];
      ghost var after := Concat(batches[b + 1..]);
      NextBatch(batches, pending, cfg.budget, sent, b);
      var result, used := TranslateOne(batch, cfg.budget, prompts, provider);
      if result.Failure? {
        SentMeans(cfg, source, prev, decisions, reused, provider, sent, prompts, translated, nextFlat, memory);
        return Some(result.error), nextFlat, memory, prompts + used, translated;
      }
      BatchSent(cfg, source, prev, decisions, reused, provider, pending, sent, batch, after, prompts, used,
                translated, result.value, nextFlat, memory);
      nextFlat, memory := RecordBatch(cfg, batch, result.value, nextFlat, memory);
      translated, prompts, sent := translated + result.value, prompts + used, sent + batch;
    }
    NoBatchLeft(batches, sent);
    SentMeans(cfg, source, prev, decisions, reused, provider, sent, prompts, translated, nextFlat, memory);
  }

  // ------------------------------------------------------- the fallback phase

  function FilledFlat(
      cfg: Config, source: Source, prev: Files, decisions: map<string, Decision>, translated: map<string, string>,
      done: set<string>): map<string, string>
    requires source.texts.Keys == decisions.Keys
  {
    map key | key in source.texts && (decisions[key].Pending? ==> key in translated || key in done)
      :: NextValue(cfg, prev, decisions[key], translated, key, source.texts[key])
  }

  function FilledFallbacks(
      cfg: Config, prev: Files, decisions: map<string, Decision>, translated: map<string, string>,
      done: set<string>): set<string>
  {
    set key | key in decisions && (decisions[key].Pending? ==> key in done)
      && IsNextFallback(cfg, prev, decisions[key], translated, key)
  }

  lemma {:induction false} FilledOneMore(
      cfg: Config, source: Source, prev: Files, decisions: map<string, Decision>, translated: map<string, string>,
      done: set<string>, key: string)
    requires source.texts.Keys == decisions.Keys && key in source.texts && decisions[key].Pending?
    ensures var before, after := FilledFlat(cfg, source, prev, decisions, translated, done),
                                 FilledFlat(cfg, source, prev, decisions, translated, done + {key});
            && after == (if key in before then before
                         else before[key := NextValue(cfg, prev, decisions[key], translated, key, source.texts[key])])
            && (key in before <==> key in translated || key in done)
    ensures FilledFallbacks(cfg, prev, decisions, translated, done + {key})
         == FilledFallbacks(cfg, prev, decisions, translated, done)
            + if IsNextFallback(cfg, prev, decisions[key], translated, key) then {key} else {}
    ensures key in done && IsNextFallback(cfg, prev, decisions[key], translated, key)
            ==> key in FilledFallbacks(cfg, prev, decisions, translated, done)
  {
  }

  lemma {:induction false} FilledStart(
      cfg: Config, source: Source, prev: Files, decisions: map<string, Decision>, translated: map<string, string>)
    requires source.texts.Keys == decisions.Keys
    requires forall key | key in translated :: key in decisions && decisions[key].Pending?
    ensures ReusedFlat(cfg, source, prev, decisions, source.texts.Keys) + translated
         == FilledFlat(cfg, source, prev, decisions, translated, {})
    ensures ReusedFallbacks(cfg, prev, decisions, source.texts.Keys)
         == FilledFallbacks(cfg, prev, decisions, translated, {})
  {
  }

  lemma {:induction false} FilledEnd(
      cfg: Config, source: Source, prev: Files, decisions: map<string, Decision>, translated: map<string, string>,
      pending: seq<BatchItem>)
    requires source.texts.Keys == decisions.Keys
    requires ArePending(cfg, source, decisions, source.texts.Keys, pending)
    ensures FilledFlat(cfg, source, prev, decisions, translated, Keys(pending))
              == NextFlat(cfg, source, prev, decisions, translated)
    ensures FilledFallbacks(cfg, prev, decisions, translated, Keys(pending))
              == NextFallbacks(cfg, prev, decisions, translated)
  {
  }

  /** The last loop: pending keys without a translation keep their text or fall back to English. */
  method FillFallbacks(
      cfg: Config, source: Source, prev: Files, ghost decisions: map<string, Decision>, pending: seq<BatchItem>,
      flatSoFar: map<string, string>, fallbacksSoFar: seq<string>, ghost translated: map<string, string>)
    returns (nextFlat: map<string, string>, fallbackKeys: seq<string>)
    requires source.texts.Keys == decisions.Keys
    requires ArePending(cfg, source, decisions, source.texts.Keys, pending)
    requires forall key | key in translated :: key in decisions && decisions[key].Pending?
    requires flatSoFar == ReusedFlat(cfg, source, prev, decisions, source.texts.Keys) + translated
    requires Elements(fallbacksSoFar) == ReusedFallbacks(cfg, prev, decisions, source.texts.Keys)
    ensures nextFlat == NextFlat(cfg, source, prev, decisions, translated)
    ensures Elements(fallbackKeys) == NextFallbacks(cfg, prev, decisions, translated)
  {
    hide FilledFlat, FilledFallbacks, ReusedFlat, ReusedFallbacks, NextFlat, NextFallbacks;
    nextFlat, fallbackKeys := flatSoFar, fallbacksSoFar;
    FilledStart(cfg, source, prev, decisions, translated);
    for n := 0 to |pending|
      invariant nextFlat == FilledFlat(cfg, source, prev, decisions, translated, Keys(pending[..n]))
      invariant Elements(fallbackKeys) == FilledFallbacks(cfg, prev, decisions, translated, Keys(pending[..n]))
    {
      var item := pending[n];
      assert pending[..n + 1][..n] == pending[..n];
      FilledOneMore(cfg, source, prev, decisions, translated, Keys(pending[..n]), item.key);
      if item.key !in nextFlat {
        if item.key in prev.flat && !cfg.force {
          nextFlat := nextFlat[item.key := prev.flat[item.key]];
          if item.key in PreviousFallbacks(prev) { fallbackKeys := fallbackKeys + [item.key]; }
        } else {
          nextFlat := nextFlat[item.key := item.text];
          fallbackKeys := fallbackKeys + [item.key];
        }
      }
    }
    assert pending[..|pending|] == pending;
    FilledEnd(cfg, source, prev, decisions, translated, pending);
  }

  // ------------------------------------------------------------ the whole run

  /** How a run ends. Nothing is written unless it completes. */
  datatype Outcome =
    | Completed(files: Files)
    | Skipped(fallbackCount: nat)
    | Aborted(message: string)

  predicate IsProviderAuthError(message: string) {
    var lower := ToLower(message);
    Contains(lower, "401") || Contains(lower, "authentication_error")
    || Contains(lower, "incorrect api key") || Contains(lower, "invalid x-api-key")
  }

  /** An error counts as a failed authentication exactly if its message says one of four things. */
  lemma {:induction false} AuthErrorIsSaid(message: string)
    ensures IsProviderAuthError(message) <==>
              || (exists offset: nat :: SaysAt(message, offset, "401"))
              || (exists offset: nat :: SaysAt(message, offset, "authentication_error"))
              || (exists offset: nat :: SaysAt(message, offset, "incorrect api key"))
              || (exists offset: nat :: SaysAt(message, offset, "invalid x-api-key"))
  {
    hide ToLower, Contains, SaysAt;
    SaidAnywhere(message, "401");
    SaidAnywhere(message, "authentication_error");
    SaidAnywhere(message, "incorrect api key");
    SaidAnywhere(message, "invalid x-api-key");
  }

  predicate PlaceholdersKept(cfg: Config, source: Source, flat: map<string, string>) {
    forall key | key in flat && key in source.texts :: cfg.samePlaceholders(source.texts[key], flat[key])
  }

  ghost function Decisions(cfg: Config, source: Source, prev: Files): map<string, Decision> {
    map key | key in source.texts :: Decide(cfg, prev, key, source.texts[key])
  }

  lemma {:induction false} TranslatedKeys(
      cfg: Config, source: Source, decisions: map<string, Decision>, pending: seq<BatchItem>)
    requires source.texts.Keys == decisions.Keys && ArePending(cfg, source, decisions, source.texts.Keys, pending)
    ensures forall key :: key in Keys(pending) <==> key in decisions && decisions[key].Pending?
  {
    forall key | key in Keys(pending) ensures key in decisions && decisions[key].Pending? {
      KeysAreKeys(pending, key);
    }
  }

  lemma {:induction false} SyncAssembled(
      cfg: Config, source: Source, prev: Files, translated: map<string, string>, files: Files)
    requires var decisions := Decisions(cfg, source, prev);
             && (forall key :: key in translated <==> cfg.allowTranslate && key in decisions && decisions[key].Pending?)
             && (forall key | key in translated :: !IsBlank(translated[key]))
             && files.flat == NextFlat(cfg, source, prev, decisions, translated)
             && files.meta == Some(NextMeta(cfg, source, prev.meta, NextFallbacks(cfg, prev, decisions, translated)))
             && Overlaid(prev.memory, WrittenEntries(cfg, source, decisions, translated, source.texts.Keys),
               files.memory)
             && PlaceholdersKept(cfg, source, files.flat)
    ensures IsSync(cfg, source, prev, Decisions(cfg, source, prev), translated, files)
  {
    hide Decide, NextValue, NextMeta, NextFallbacks, WrittenEntries, Overlaid;
  }

  method SyncLocale(cfg: Config, source: Source, prev: Files, provider: Provider)
    returns (outcome: Outcome, prompts: nat, ghost translated: map<string, string>)
    requires source.Valid() && prev.memory.Loaded()
    ensures outcome.Completed? ==>
              && IsSync(cfg, source, prev, Decisions(cfg, source, prev), translated, outcome.files)
              && forall key | key in translated :: SentDuring(provider, 0, prompts, key, translated[key])
    ensures prompts <= 4 * |PendingKeys(Decisions(cfg, source, prev), source.texts.Keys)|
    ensures outcome.Skipped? ==>
              && prompts > 0
              && exists message :: IsProviderAuthError(message) && FailedWith(provider, prompts - 1, message)
    ensures outcome.Aborted? ==>
              || outcome.message == "control-ui-i18n placeholder mismatch detected for " + cfg.locale
              || (prompts > 0 && FailedWith(provider, prompts - 1, outcome.message)
                  && !(cfg.authOptional && IsProviderAuthError(outcome.message)))
    ensures outcome.Skipped? ==>
              && cfg.authOptional && cfg.allowTranslate
                && PendingKeys(Decisions(cfg, source, prev), source.texts.Keys) != {}
              && outcome.fallbackCount == if prev.meta.Some? then |prev.meta.value.fallbackKeys| else 0
    ensures !cfg.allowTranslate || PendingKeys(Decisions(cfg, source, prev), source.texts.Keys) == {} ==>
              && prompts == 0 && translated == map[]
              && (outcome.Completed? <==>
                  PlaceholdersKept(cfg, source, NextFlat(cfg, source, prev, Decisions(cfg, source, prev), map[])))
  {
    hide Decide, NextFlat, NextFallbacks, NextMeta, ReusedFlat, ReusedFallbacks, WrittenEntries, Overlaid, ArePending,
      Keys, FailedWith, IsProviderAuthError;
    ghost var decisions := Decisions(cfg, source, prev);
    var nextFlat, pending, fallbackKeys, memory := ReuseTranslations(cfg, source, prev, decisions);
    TranslatedKeys(cfg, source, decisions, pending);
    PendingCount(cfg, source, decisions, pending);
    prompts, translated := 0, map[];
    assert nextFlat + map[] == nextFlat;
    if cfg.allowTranslate && |pending| > 0 {
      var failure;
      failure, nextFlat, memory, prompts, translated :=
        TranslatePending(cfg, source, prev, decisions, pending, nextFlat, memory, provider);
      if failure.Some? {
        if cfg.authOptional && IsProviderAuthError(failure.value) {
          return Skipped(if prev.meta.Some? then |prev.meta.value.fallbackKeys| else 0), prompts, translated;
        }
        return Aborted(failure.value), prompts, translated;
      }
    }
    nextFlat, fallbackKeys := FillFallbacks(cfg, source, prev, decisions, pending, nextFlat, fallbackKeys, translated);
    if !PlaceholdersKept(cfg, source, nextFlat) {
      return Aborted("control-ui-i18n placeholder mismatch detected for " + cfg.locale), prompts, translated;
    }
    var files := Files(nextFlat, Some(NextMeta(cfg, source, prev.meta, Elements(fallbackKeys))), memory);
    SyncAssembled(cfg, source, prev, translated, files);
    return Completed(files), prompts, translated;
  }

  lemma {:induction false} PendingCount(
      cfg: Config, source: Source, decisions: map<string, Decision>, pending: seq<BatchItem>)
    requires source.texts.Keys == decisions.Keys && ArePending(cfg, source, decisions, source.texts.Keys, pending)
    ensures |pending| == |PendingKeys(decisions, source.texts.Keys)|
    ensures pending == [] <==> PendingKeys(decisions, source.texts.Keys) == {}
    ensures pending == [] <==> forall key | key in decisions :: !decisions[key].Pending?
  {
    assert pending == [] ==> PendingKeys(decisions, source.texts.Keys) == {};
    forall key | key in decisions && decisions[key].Pending? ensures pending != [] {
      assert key in PendingKeys(decisions, source.texts.Keys);
    }
  }
}
