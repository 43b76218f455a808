/** What a completed sync guarantees (scripts/control-ui-i18n.ts): it accounts for
    every key, and running it again on its own output changes nothing. */
module SyncProperties {
  import opened Basics
  import opened TranslationBatches
  import opened BatchTranslation
  import opened TranslationMemory
  import opened TranslationSync
  import LocaleTree

  // ------------------------------------------------------------- accounting

  /** One value per source key; the fallbacks are source keys; translated and
      fallback keys add up to the total. */
  lemma {:induction false} EveryKeyAccounted(
      cfg: Config, source: Source, prev: Files, decisions: map<string, Decision>, translated: map<string, string>,
      next: Files)
    requires source.Valid() && SortsKeys(cfg.sortKeys)
    requires IsSync(cfg, source, prev, decisions, translated, next)
    ensures next.flat.Keys == source.texts.Keys
    ensures PreviousFallbacks(next) == NextFallbacks(cfg, prev, decisions, translated) <= source.texts.Keys
    ensures var meta := next.meta.value;
            && meta.totalKeys == |source.texts|
            && meta.translatedKeys + |PreviousFallbacks(next)| == meta.totalKeys
            && 0 <= meta.translatedKeys
  {
    var fallbacks := NextFallbacks(cfg, prev, decisions, translated);
    FallbacksRead(cfg, source, prev, decisions, translated, next);
    assert Elements(source.order) == source.texts.Keys;
    DistinctCount(source.order);
    SubsetIsNoLarger(fallbacks, source.texts.Keys);
  }

  lemma {:induction false} FallbacksRead(
      cfg: Config, source: Source, prev: Files, decisions: map<string, Decision>, translated: map<string, string>,
      next: Files)
    requires SortsKeys(cfg.sortKeys) && IsSync(cfg, source, prev, decisions, translated, next)
    ensures PreviousFallbacks(next) == NextFallbacks(cfg, prev, decisions, translated)
    ensures |next.meta.value.fallbackKeys| == |NextFallbacks(cfg, prev, decisions, translated)|
  {
    var fallbacks := NextFallbacks(cfg, prev, decisions, translated);
    assert next.meta.value.fallbackKeys == cfg.sortKeys(fallbacks);
  }

  lemma {:induction false} DistinctCount<T>(s: seq<T>)
    requires Distinct(s)
    ensures |Elements(s)| == |s|
  {
    if s != [] {
      var init, last := s[..|s| - 1], s[|s| - 1];
      DistinctCount(init);
      assert Elements(s) == Elements(init) + {last} && last !in Elements(init);
    }
  }

  /** With a provider no fallback is left, forced or not. */
  lemma {:induction false} ProviderLeavesNoFallback(
      cfg: Config, source: Source, prev: Files, decisions: map<string, Decision>, translated: map<string, string>,
      next: Files)
    requires cfg.allowTranslate && SortsKeys(cfg.sortKeys)
    requires IsSync(cfg, source, prev, decisions, translated, next)
    ensures PreviousFallbacks(next) == {}
  {
    FallbacksRead(cfg, source, prev, decisions, translated, next);
    forall key | key in decisions ensures !IsNextFallback(cfg, prev, decisions[key], translated, key) {
      assert IsDecided(cfg, source, prev, decisions, key);
    }
  }

  /** Without a provider or force, the only new fallbacks are keys that had no translation. */
  lemma {:induction false} FallbacksGainOnlyUntranslated(
      cfg: Config, source: Source, prev: Files, decisions: map<string, Decision>, translated: map<string, string>,
      next: Files)
    requires !cfg.allowTranslate && !cfg.force && SortsKeys(cfg.sortKeys)
    requires IsSync(cfg, source, prev, decisions, translated, next)
    ensures forall key | key in PreviousFallbacks(next) - PreviousFallbacks(prev) ::
              key !in prev.flat && next.flat[key] == source.texts[key]
  {
    FallbacksRead(cfg, source, prev, decisions, translated, next);
    forall key | key in PreviousFallbacks(next) - PreviousFallbacks(prev)
      ensures key !in prev.flat && next.flat[key] == source.texts[key]
    {
      assert IsDecided(cfg, source, prev, decisions, key);
    }
  }

  // ------------------------------------------------- where each value comes from

  /** Existing work may be reused unless the key fell back to English before and there is
      a provider or the run is forced. */
  ghost predicate MayReuse(cfg: Config, prev: Files, key: string) {
    key !in PreviousFallbacks(prev) || (!cfg.allowTranslate && !cfg.force)
  }

  /** The memory has a translation of this very key and text. */
  ghost predicate HasOwn(cfg: Config, prev: Files, key: string, text: string) {
    Segment(key, cfg.hashText(text)) in prev.memory.entries && MayReuse(cfg, prev, key)
  }

  /** The memory has a translation of this text, and the key has none or fell back. */
  ghost predicate HasTwin(cfg: Config, prev: Files, key: string, text: string) {
    && (key in PreviousFallbacks(prev) || key !in prev.flat)
    && exists entry :: IsLastWithText(prev.memory, cfg.locale, cfg.hashText(text), entry)
  }

  ghost predicate HasOld(cfg: Config, prev: Files, key: string) {
    key in prev.flat && MayReuse(cfg, prev, key)
  }

  /** The value of a key in a completed run: the translation of this very key and text
      comes first, then the last one of the same text, then the existing one, then what
      the provider sent; failing all, what was there before, or English. */
  lemma {:induction false} ValueIsChosen(
      cfg: Config, source: Source, prev: Files, decisions: map<string, Decision>, translated: map<string, string>,
      next: Files, key: string)
    requires IsSync(cfg, source, prev, decisions, translated, next) && key in source.texts
    ensures key in next.flat
    ensures var text := source.texts[key];
            if HasOwn(cfg, prev, key, text) then
              key !in translated && next.flat[key] == prev.memory.entries[Segment(key, cfg.hashText(text))].translated
            else if HasTwin(cfg, prev, key, text) then
              && key !in translated
              && forall entry | IsLastWithText(prev.memory, cfg.locale, cfg.hashText(text), entry) ::
                   next.flat[key] == entry.translated
            else if HasOld(cfg, prev, key) then key !in translated && next.flat[key] == prev.flat[key]
            else if cfg.allowTranslate then key in translated && next.flat[key] == translated[key]
            else key !in translated && next.flat[key] == if key in prev.flat && !cfg.force then prev.flat[key] else text
  {
    assert IsDecided(cfg, source, prev, decisions, key);
    TextIndexHasLast(prev.memory, cfg.locale, cfg.hashText(source.texts[key]));
    hide TextIndex, IsLastWithText, PreviousFallbacks, IsNextFallback, Written, NextMeta, Overlaid;
  }

  /** Which keys a completed run records as fallbacks. */
  lemma {:induction false} FallbackIsMarked(
      cfg: Config, source: Source, prev: Files, decisions: map<string, Decision>, translated: map<string, string>,
      next: Files, key: string)
    requires IsSync(cfg, source, prev, decisions, translated, next) && key in source.texts && SortsKeys(cfg.sortKeys)
    ensures var text, before := source.texts[key], key in PreviousFallbacks(prev);
            key in PreviousFallbacks(next) <==>
              if HasOwn(cfg, prev, key, text) then before
              else if HasTwin(cfg, prev, key, text) then false
              else if HasOld(cfg, prev, key) then before
              else !cfg.allowTranslate && (key in prev.flat && !cfg.force ==> before)
  {
    FallbacksRead(cfg, source, prev, decisions, translated, next);
    assert IsDecided(cfg, source, prev, decisions, key);
    TextIndexHasLast(prev.memory, cfg.locale, cfg.hashText(source.texts[key]));
    hide TextIndex, IsLastWithText, PreviousFallbacks, NextValue, Written, NextMeta, Overlaid;
  }

  /** The memory after a completed run: at a source key and text, the entry found by its
      text is copied under the key and a new translation is entered in full; everything
      else is as before. */
  lemma {:induction false} MemoryIsWritten(
      cfg: Config, source: Source, prev: Files, decisions: map<string, Decision>, translated: map<string, string>,
      next: Files, key: string)
    requires IsSync(cfg, source, prev, decisions, translated, next) && key in source.texts
    ensures var text := source.texts[key];
            var hash := cfg.hashText(text);
            var own := Segment(key, hash);
            if HasOwn(cfg, prev, key, text) then next.memory.Get(own) == prev.memory.Get(own)
            else if HasTwin(cfg, prev, key, text) then
              forall entry | IsLastWithText(prev.memory, cfg.locale, hash, entry) ::
                next.memory.Get(own) == Some(entry.(cacheKey := own, segmentId := key, sourcePath := cfg.sourcePath))
            else if key in translated then
              next.memory.Get(own) == Some(Entry(own, key, cfg.sourcePath, text, hash, "en", cfg.locale,
                                                 translated[key], cfg.provider, cfg.model, cfg.now))
            else next.memory.Get(own) == prev.memory.Get(own)
  {
    assert IsDecided(cfg, source, prev, decisions, key);
    EntryOfKey(cfg, source, prev, decisions, translated, next, key);
    TextIndexHasLast(prev.memory, cfg.locale, cfg.hashText(source.texts[key]));
    hide TextIndex, IsLastWithText, PreviousFallbacks, NextValue, NextMeta, Overlaid;
  }

  lemma {:induction false} MemoryElsewhere(
      cfg: Config, source: Source, prev: Files, decisions: map<string, Decision>, translated: map<string, string>,
      next: Files, at: CacheKey)
    requires IsSync(cfg, source, prev, decisions, translated, next)
    requires forall key | key in source.texts :: at != Segment(key, cfg.hashText(source.texts[key]))
    ensures next.memory.Get(at) == prev.memory.Get(at)
  {
    WrittenUnderOwn(cfg, source, prev, decisions, translated);
    var written := WrittenEntries(cfg, source, decisions, translated, source.texts.Keys);
    hide WrittenEntries, NextFlat, NextMeta, NextFallbacks, AreDecided;
    assert !IsOverlay(written, at);
  }

  lemma {:induction false} WrittenUnderOwn(
      cfg: Config, source: Source, prev: Files, decisions: map<string, Decision>, translated: map<string, string>)
    requires AreDecided(cfg, source, prev, decisions)
    ensures var written := WrittenEntries(cfg, source, decisions, translated, source.texts.Keys);
            forall key | key in written ::
              key in source.texts && written[key].cacheKey == Segment(key, cfg.hashText(source.texts[key]))
  {
    hide Decide;
  }

  /** The metadata of a completed run: what it counts and names, with the timestamp of the
      previous metadata exactly if nothing else has changed. */
  lemma {:induction false} MetaIsTold(
      cfg: Config, source: Source, prev: Files, decisions: map<string, Decision>, translated: map<string, string>,
      next: Files)
    requires source.Valid() && SortsKeys(cfg.sortKeys) && IsSync(cfg, source, prev, decisions, translated, next)
    ensures next.meta.Some?
    ensures var meta := next.meta.value;
            && meta.fallbackKeys == cfg.sortKeys(PreviousFallbacks(next))
            && meta.locale == cfg.locale && meta.sourceHash == source.hash && meta.workflow == 1
            && meta.totalKeys == |source.texts|
            && (cfg.allowTranslate ==> meta.provider == cfg.provider && meta.model == cfg.model)
            && (!cfg.allowTranslate && prev.meta.Some? ==>
                  meta.provider == prev.meta.value.provider && meta.model == prev.meta.value.model)
            && (!cfg.allowTranslate && prev.meta.None? ==> meta.provider == "" && meta.model == "")
            && if prev.meta.Some? && meta.(generatedAt := prev.meta.value.generatedAt) == prev.meta.value
               then meta == prev.meta.value
               else meta.generatedAt == cfg.now
  {
    FallbacksRead(cfg, source, prev, decisions, translated, next);
    EveryKeyAccounted(cfg, source, prev, decisions, translated, next);
    hide NextFallbacks, NextFlat, Overlaid, WrittenEntries, AreDecided;
  }

  // ------------------------------------------------------------ fixed point

  /** A later run of the same configuration: only the clock, the budget and how
      authentication failures are treated may differ. It may drop the provider or
      change the force flag if the first run had a provider. */
  ghost predicate MayFollow(cfg: Config, again: Config) {
    && again == cfg.(allowTranslate := again.allowTranslate, force := again.force, now := again.now,
                     budget := again.budget, authOptional := again.authOptional)
    && (cfg.allowTranslate || (!again.allowTranslate && again.force == cfg.force))
  }

  /** The files read back: the memory's lines may have been reordered by sorting. */
  ghost predicate ReadBack(next: Files, reread: Files) {
    && reread.flat == next.flat && reread.meta == next.meta
    && reread.memory.Loaded() && reread.memory.entries == next.memory.entries
  }

  /** What the new memory holds for a key of the source. */
  lemma {:induction false} EntryOfKey(
      cfg: Config, source: Source, prev: Files, decisions: map<string, Decision>, translated: map<string, string>,
      next: Files, key: string)
    requires key in source.texts && source.texts.Keys == decisions.Keys
    requires Overlaid(prev.memory, WrittenEntries(cfg, source, decisions, translated, source.texts.Keys), next.memory)
    requires decisions[key] == Decide(cfg, prev, key, source.texts[key])
    ensures var at := Segment(key, cfg.hashText(source.texts[key]));
            var entry := Written(cfg, decisions[key], translated, key, source.texts[key]);
            next.memory.Get(at) == if entry.Some? then entry else prev.memory.Get(at)
  {
    hide Decide;
    var at := Segment(key, cfg.hashText(source.texts[key]));
    var written := WrittenEntries(cfg, source, decisions, translated, source.texts.Keys);
    assert next.memory.Get(at) == if IsOverlay(written, at) then Some(written[at.id]) else prev.memory.Get(at);
  }

  /** Without a provider the new memory has no text hash that the old one lacked:
      what the run wrote are copies of entries found by their hash. */
  lemma {:induction false} NoNewTextHash(
      cfg: Config, source: Source, prev: Files, decisions: map<string, Decision>, next: Files, reread: Memory,
      hash: string)
    requires AreDecided(cfg, source, prev, decisions) && prev.memory.Valid()
    requires Overlaid(prev.memory, WrittenEntries(cfg, source, decisions, map[], source.texts.Keys), next.memory)
    requires reread.entries == next.memory.entries
    requires hash in TextIndex(reread.order, reread.entries, cfg.locale)
    ensures hash in TextIndex(prev.memory.order, prev.memory.entries, cfg.locale)
  {
    hide Decide;
    TextIndexFinds(reread.order, reread.entries, cfg.locale, hash);
    TextIndexFinds(prev.memory.order, prev.memory.entries, cfg.locale, hash);
    var at :| at in reread.order && at in reread.entries && Usable(reread.entries[at], cfg.locale)
        && reread.entries[at].textHash == hash;
    var written := WrittenEntries(cfg, source, decisions, map[], source.texts.Keys);
    assert next.memory.Get(at) == if IsOverlay(written, at) then Some(written[at.id]) else prev.memory.Get(at);
    if IsOverlay(written, at) {
      CopyHasIndexedHash(cfg, source, prev, decisions, at.id);
    } else {
      assert at in prev.memory.order;
    }
  }

  lemma {:induction false} CopyHasIndexedHash(
      cfg: Config, source: Source, prev: Files, decisions: map<string, Decision>, key: string)
    requires AreDecided(cfg, source, prev, decisions) && key in source.texts
    requires Written(cfg, decisions[key], map[], key, source.texts[key]).Some?
    ensures Written(cfg, decisions[key], map[], key, source.texts[key]).value.textHash
            in TextIndex(prev.memory.order, prev.memory.entries, cfg.locale)
  {
    assert IsDecided(cfg, source, prev, decisions, key);
    SameTextIsKeepable(cfg, prev, key, source.texts[key]);
  }

  /** The heart of the fixed point, on one key and its decisions alone. */
  lemma {:induction false} DecideAgain(
      cfg: Config, again: Config, prev: Files, translated: map<string, string>, reread: Files, key: string,
      text: string)
    requires MayFollow(cfg, again)
    requires var first := Decide(cfg, prev, key, text);
             var at := Segment(key, cfg.hashText(text));
             var entry := Written(cfg, first, translated, key, text);
             && reread.memory.Get(at) == (if entry.Some? then entry else prev.memory.Get(at))
             && (key in translated <==> cfg.allowTranslate && first.Pending?)
             && key in reread.flat && reread.flat[key] == NextValue(cfg, prev, first, translated, key, text)
             && (key in PreviousFallbacks(reread) <==> IsNextFallback(cfg, prev, first, translated, key))
             && (!cfg.allowTranslate && at.textHash in TextIndex(reread.memory.order, reread.memory.entries, cfg.locale)
                 ==> at.textHash in TextIndex(prev.memory.order, prev.memory.entries, cfg.locale))
    ensures var second := Decide(again, reread, key, text);
            && !second.SameText?
            && (second.Pending? ==> !again.allowTranslate)
            && NextValue(again, reread, second, map[], key, text) == reread.flat[key]
            && (IsNextFallback(again, reread, second, map[], key) <==> key in PreviousFallbacks(reread))
  {
    hide TextIndex, PreviousFallbacks;
  }

  lemma {:induction false} SecondDecision(
      cfg: Config, again: Config, source: Source, prev: Files, decisions: map<string, Decision>,
      translated: map<string, string>, next: Files, reread: Files, key: string)
    requires MayFollow(cfg, again) && SortsKeys(cfg.sortKeys) && prev.memory.Valid() && key in source.texts
    requires IsSync(cfg, source, prev, decisions, translated, next) && ReadBack(next, reread)
    ensures var second := Decide(again, reread, key, source.texts[key]);
            && !second.SameText?
            && (second.Pending? ==> !again.allowTranslate)
            && NextValue(again, reread, second, map[], key, source.texts[key]) == next.flat[key]
            && (IsNextFallback(again, reread, second, map[], key) <==> key in PreviousFallbacks(next))
  {
    hide Decide, TextIndex;
    var text := source.texts[key];
    var hash := cfg.hashText(text);
    assert IsDecided(cfg, source, prev, decisions, key);
    FallbacksRead(cfg, source, prev, decisions, translated, next);
    EntryOfKey(cfg, source, prev, decisions, translated, next, key);
    if !cfg.allowTranslate {
      assert translated == map[];
      if hash in TextIndex(reread.memory.order, reread.memory.entries, cfg.locale) {
        NoNewTextHash(cfg, source, prev, decisions, next, reread.memory, hash);
      }
    }
    DecideAgain(cfg, again, prev, translated, reread, key, text);
  }

  /** Metadata computed from itself keeps its timestamp. */
  lemma {:induction false} MetaIsFixedPoint(cfg: Config, again: Config, source: Source, previous: Option<Meta>,
        fallbacks: set<string>)
    requires MayFollow(cfg, again)
    ensures var meta := NextMeta(cfg, source, previous, fallbacks);
            NextMeta(again, source, Some(meta), fallbacks) == meta
  {
  }

  lemma {:induction false} SecondDecisions(
      cfg: Config, again: Config, source: Source, prev: Files, decisions: map<string, Decision>,
      translated: map<string, string>, next: Files, reread: Files, decisions2: map<string, Decision>)
    requires MayFollow(cfg, again) && SortsKeys(cfg.sortKeys) && prev.memory.Valid()
    requires IsSync(cfg, source, prev, decisions, translated, next) && ReadBack(next, reread)
    requires AreDecided(again, source, reread, decisions2)
    ensures forall key | key in source.texts ::
              && !decisions2[key].SameText?
              && (decisions2[key].Pending? ==> !again.allowTranslate)
              && NextValue(again, reread, decisions2[key], map[], key, source.texts[key]) == next.flat[key]
              && (IsNextFallback(again, reread, decisions2[key], map[], key) <==> key in PreviousFallbacks(next))
  {
    hide Decide, NextValue, IsNextFallback, PreviousFallbacks;
    forall key | key in source.texts
      ensures !decisions2[key].SameText? && (decisions2[key].Pending? ==> !again.allowTranslate)
      ensures NextValue(again, reread, decisions2[key], map[], key, source.texts[key]) == next.flat[key]
      ensures IsNextFallback(again, reread, decisions2[key], map[], key) <==> key in PreviousFallbacks(next)
    {
      assert IsDecided(again, source, reread, decisions2, key);
      SecondDecision(cfg, again, source, prev, decisions, translated, next, reread, key);
    }
  }

  /** Sync is a fixed point: a second run on a completed run's own output, its
      memory reread in any order, asks for no translation and leaves the locale map,
      the metadata (timestamp included) and the memory exactly as they are. */
  lemma {:induction false} SyncIsFixedPoint(
      cfg: Config, again: Config, source: Source, prev: Files, decisions: map<string, Decision>,
      translated: map<string, string>, next: Files, reread: Files,
      decisions2: map<string, Decision>, translated2: map<string, string>, next2: Files)
    requires MayFollow(cfg, again) && SortsKeys(cfg.sortKeys) && prev.memory.Valid()
    requires IsSync(cfg, source, prev, decisions, translated, next) && ReadBack(next, reread)
    requires IsSync(again, source, reread, decisions2, translated2, next2)
    ensures again.allowTranslate ==> PendingKeys(decisions2, source.texts.Keys) == {}
    ensures translated2 == map[]
    ensures next2 == reread
  {
    hide Decide, NextValue, IsNextFallback, NextMeta, PreviousFallbacks, Overlaid;
    SecondDecisions(cfg, again, source, prev, decisions, translated, next, reread, decisions2);
    assert translated2 == map[];
    assert next2.flat == next.flat;
    assert WrittenEntries(again, source, decisions2, map[], source.texts.Keys) == map[];
    NothingWritten(reread.memory, next2.memory);
    hide WrittenEntries, Written;
    FallbacksRead(cfg, source, prev, decisions, translated, next);
    var fallbacks := NextFallbacks(cfg, prev, decisions, translated);
    assert NextFallbacks(again, reread, decisions2, map[]) == fallbacks;
    hide NextFallbacks, NextFlat, AreDecided;
    MetaIsFixedPoint(cfg, again, source, prev.meta, fallbacks);
  }

  /** Rendering sorts the memory's lines; any order of its keys will do. */
  ghost predicate SortsMemory(sort: Memory -> seq<CacheKey>) {
    forall memory: Memory :: memory.Valid() ==>
      Distinct(sort(memory)) && (forall key :: key in sort(memory) <==> key in memory.entries)
  }

  lemma {:induction false} RereadMemory(memory: Memory, sort: Memory -> seq<CacheKey>)
    requires memory.Loaded() && SortsMemory(sort)
    ensures forall key | key in sort(memory) :: key in memory.entries
    ensures Load(Lines(memory, sort(memory))) == Memory(sort(memory), memory.entries)
  {
    LoadLines(memory, sort(memory));
    assert Load(Lines(memory, sort(memory))).entries == memory.entries;
  }

  lemma {:induction false} SecondRunCompletes(
      cfg: Config, again: Config, source: Source, prev: Files, translated: map<string, string>, next: Files,
      reread: Files)
    requires MayFollow(cfg, again) && SortsKeys(cfg.sortKeys) && prev.memory.Valid()
    requires IsSync(cfg, source, prev, Decisions(cfg, source, prev), translated, next) && ReadBack(next, reread)
    ensures var decisions2 := Decisions(again, source, reread);
            && (!again.allowTranslate || PendingKeys(decisions2, source.texts.Keys) == {})
            && PlaceholdersKept(again, source, NextFlat(again, source, reread, decisions2, map[]))
  {
    var decisions2 := Decisions(again, source, reread);
    SecondDecisions(cfg, again, source, prev, Decisions(cfg, source, prev), translated, next, reread, decisions2);
    hide Decide, NextValue, IsNextFallback;
    assert NextFlat(again, source, reread, decisions2, map[]) == next.flat;
  }

  /** The source of a run: the English locale map, flattened. */
  function SourceOf(english: LocaleTree.Fields, hash: string): Source {
    var flat := LocaleTree.FlattenInto(english, "", LocaleTree.NOTHING);
    Source(flat.order, flat.texts, hash)
  }

  lemma {:induction false} TidySourceIsValid(english: LocaleTree.Fields, hash: string)
    requires LocaleTree.IsTidy(english)
    ensures SourceOf(english, hash).Valid()
  {
    LocaleTree.FlattenLists(english);
    LocaleTree.EntriesAreDotFree(english);
    LocaleTree.EntriesAreDistinct(english);
    LocaleTree.JoinedKeysAreDistinct(LocaleTree.Entries(english));
  }

  /** Writes a completed run's files and reads them back: the locale as a nested map,
      the memory as sorted lines. */
  method WriteAndReadBack(english: LocaleTree.Fields, source: Source, files: Files, sort: Memory -> seq<CacheKey>)
    returns (reread: Files)
    requires LocaleTree.IsTidy(english) && source == SourceOf(english, source.hash) && SortsMemory(sort)
    requires files.memory.Loaded() && files.flat.Keys == source.texts.Keys
    ensures ReadBack(files, reread) && reread.memory.order == sort(files.memory)
  {
    RereadMemory(files.memory, sort);
    var memory := LoadTranslationMemory(Lines(files.memory, sort(files.memory)));
    LocaleTree.RebuiltLocaleReadsBack(english, files.flat);
    var locale := LocaleTree.RebuildLocale(source.order, files.flat);
    var flat := LocaleTree.FlattenTranslations(locale, "", LocaleTree.NOTHING);
    reread := Files(flat.texts, files.meta, memory);
  }

  /** `sync --write` followed by another run, say `check`: once the first completes,
      the second completes, sends no prompt and would write the very same files. */
  method SyncThenSync(
      cfg: Config, again: Config, english: LocaleTree.Fields, hash: string, prev: Files, provider: Provider,
      sort: Memory -> seq<CacheKey>)
    returns (first: Outcome, reread: Files, second: Outcome, prompts: nat)
    requires LocaleTree.IsTidy(english) && prev.memory.Loaded()
    requires MayFollow(cfg, again) && SortsKeys(cfg.sortKeys) && SortsMemory(sort)
    ensures first.Completed? ==>
              && ReadBack(first.files, reread) && reread.memory.order == sort(first.files.memory)
              && second == Completed(reread) && prompts == 0
  {
    hide Decide, NextValue, NextFallbacks, NextMeta, SortsKeys, SortsMemory, LocaleTree.IsTidy;
    var source := SourceOf(english, hash);
    TidySourceIsValid(english, hash);
    var firstPrompts;
    ghost var translated;
    first, firstPrompts, translated := SyncLocale(cfg, source, prev, provider);
    reread, second, prompts := prev, first, 0;
    if first.Completed? {
      reread := WriteAndReadBack(english, source, first.files, sort);
      SecondRunCompletes(cfg, again, source, prev, translated, first.files, reread);
      ghost var translated2;
      second, prompts, translated2 := SyncLocale(again, source, reread, provider);
      SyncIsFixedPoint(cfg, again, source, prev, Decisions(cfg, source, prev), translated, first.files, reread,
                       Decisions(again, source, reread), translated2, second.files);
    }
  }
}
