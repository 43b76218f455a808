/** The translation memory file of one locale (scripts/control-ui-i18n.ts): a map
    kept in insertion order, indexed by cache key and, on demand, by text hash. */
module TranslationMemory {
  import opened Basics
  import opened TranslationBatches

  datatype Entry = Entry(
    cacheKey: CacheKey, segmentId: string, sourcePath: string, text: string, textHash: string,
    srcLang: string, tgtLang: string, translated: string, provider: string, model: string, updatedAt: string)

  /** An insertion-ordered map from cache keys to entries. */
  datatype Memory = Memory(order: seq<CacheKey>, entries: map<CacheKey, Entry>) {

    /** `order` lists the keys once each, and an entry sits under its own key. */
    ghost predicate Valid() {
      && Distinct(order)
      && (forall key :: key in order <==> key in entries)
      && (forall key | key in entries :: entries[key].cacheKey == key)
    }

    /** What loading guarantees on top: keyed, non-blank translations only. */
    ghost predicate Loaded() {
      && Valid()
      && (forall key | key in entries :: Keepable(entries[key]))
    }

    function Get(key: CacheKey): Option<Entry> {
      if key in entries then Some(entries[key]) else None
    }

    /** `Map.prototype.set`: a new key goes last, a known key keeps its place. */
    function Put(entry: Entry): Memory {
      Memory(if entry.cacheKey in entries then order else order + [entry.cacheKey],
             entries[entry.cacheKey := entry])
    }
  }

  ghost predicate Distinct<T>(s: seq<T>) {
    forall i, j | 0 <= i < j < |s| :: s[i] != s[j]
  }

  predicate Keepable(entry: Entry) {
    entry.cacheKey != Foreign("") && !IsBlank(entry.translated)
  }

  lemma {:induction false} PutKeepsLoaded(memory: Memory, entry: Entry)
    requires memory.Loaded() && Keepable(entry)
    ensures memory.Put(entry).Loaded()
  {
    assert entry.cacheKey !in memory.order ==> entry.cacheKey !in memory.entries;
  }

  /** `memory` is `base` with one entry written for each key in `written`. */
  ghost predicate Overlaid(base: Memory, written: map<string, Entry>, memory: Memory) {
    && memory.Loaded()
    && base.order <= memory.order
    && (forall key | key in written :: written[key].cacheKey.Segment? && written[key].cacheKey.id == key)
    && (forall at :: memory.Get(at) == if IsOverlay(written, at) then Some(written[at.id]) else base.Get(at))
  }

  ghost predicate IsOverlay(written: map<string, Entry>, at: CacheKey) {
    at.Segment? && at.id in written && written[at.id].cacheKey == at
  }

  lemma {:induction false} PutOverlays(base: Memory, written: map<string, Entry>, memory: Memory, key: string,
        entry: Entry)
    requires Overlaid(base, written, memory)
    requires entry.cacheKey.Segment? && entry.cacheKey.id == key && Keepable(entry)
    requires key in written ==> written[key].cacheKey == entry.cacheKey
    ensures Overlaid(base, written[key := entry], memory.Put(entry))
  {
    PutKeepsLoaded(memory, entry);
    var next, written' := memory.Put(entry), written[key := entry];
    forall at ensures next.Get(at) == if IsOverlay(written', at) then Some(written'[at.id]) else base.Get(at) {
      assert memory.Get(at) == if IsOverlay(written, at) then Some(written[at.id]) else base.Get(at);
    }
  }

  lemma {:induction false} SameKeysSameOrder(a: seq<CacheKey>, b: seq<CacheKey>)
    requires a <= b && Distinct(b) && (forall key | key in b :: key in a)
    ensures a == b
  {
    var extra := if |a| < |b| then b[|a|] else Foreign("");
    assert |a| < |b| ==> extra in b;
  }

  /** Writing nothing leaves the very same memory, order included. */
  lemma {:induction false} NothingWritten(base: Memory, memory: Memory)
    requires base.Valid() && Overlaid(base, map[], memory)
    ensures memory == base
  {
    forall at ensures memory.Get(at) == base.Get(at) {
    }
    forall at ensures at in memory.entries <==> at in base.entries {
      assert memory.Get(at) == base.Get(at);
    }
    forall at | at in memory.entries ensures memory.entries[at] == base.entries[at] {
      assert memory.Get(at) == base.Get(at);
    }
    SameKeysSameOrder(base.order, memory.order);
  }

  /** The memory read from the lines of a file, in file order. */
  function Load(lines: seq<Entry>): Memory {
    if lines == [] then Memory([], map[])
    else
      var before, line := Load(lines[..|lines| - 1]), lines[|lines| - 1];
      if Keepable(line) then before.Put(line) else before
  }

  method LoadTranslationMemory(lines: seq<Entry>) returns (memory: Memory)
    ensures memory == Load(lines) && memory.Loaded()
  {
    memory := Memory([], map[]);
    for n := 0 to |lines|
      invariant memory == Load(lines[..n]) && memory.Loaded()
    {
      assert lines[..n + 1][..n] == lines[..n];
      if Keepable(lines[n]) {
        PutKeepsLoaded(memory, lines[n]);
        memory := memory.Put(lines[n]);
      }
    }
    assert lines[..|lines|] == lines;
  }

  /** The i-th line has a key and a translation that is not blank. */
  ghost predicate IsUsableLine(lines: seq<Entry>, i: nat) {
    i < |lines| && lines[i].cacheKey != Foreign("") && !IsBlank(lines[i].translated)
  }

  /** Of several usable lines with one cache key the last is kept, and a key has an entry
      only if there is one. */
  lemma {:induction false} LoadKeepsLast(lines: seq<Entry>, key: CacheKey) returns (i: nat)
    ensures var found := Load(lines).Get(key);
            if found.Some? then
              && IsUsableLine(lines, i) && lines[i].cacheKey == key && found.value == lines[i]
              && forall j: nat | i < j && IsUsableLine(lines, j) :: lines[j].cacheKey != key
            else forall j: nat | IsUsableLine(lines, j) :: lines[j].cacheKey != key
    decreases |lines|
  {
    hide IsBlank;
    i := 0;
    if lines != [] {
      var n := |lines| - 1;
      i := LoadKeepsLast(lines[..n], key);
      forall j: nat | j < n ensures IsUsableLine(lines, j) <==> IsUsableLine(lines[..n], j) {
      }
      if Keepable(lines[n]) && lines[n].cacheKey == key {
        i := n;
      }
    }
  }

  /** The lines of a memory written in the given order. */
  function Lines(memory: Memory, order: seq<CacheKey>): (lines: seq<Entry>)
    requires forall key | key in order :: key in memory.entries
    ensures |lines| == |order|
    ensures forall i | 0 <= i < |lines| :: lines[i] == memory.entries[order[i]]
  {
    if order == [] then [] else Lines(memory, order[..|order| - 1]) + [memory.entries[order[|order| - 1]]]
  }

  ghost predicate Holds(loaded: Memory, memory: Memory, order: seq<CacheKey>) {
    && loaded.order == order
    && (forall key :: key in loaded.entries <==> key in order)
    && (forall key | key in loaded.entries :: key in memory.entries && loaded.entries[key] == memory.entries[key])
  }

  lemma {:induction false} HoldsOneMore(loaded: Memory, memory: Memory, order: seq<CacheKey>, key: CacheKey)
    requires memory.Loaded() && key in memory.entries && key !in order
    requires Holds(loaded, memory, order)
    ensures Holds(loaded.Put(memory.entries[key]), memory, order + [key])
  {
  }

  /** Writing a memory in any order of its keys and loading it back changes nothing
      but the order. */
  lemma {:induction false} LoadLines(memory: Memory, order: seq<CacheKey>)
    requires memory.Loaded() && Distinct(order) && (forall key | key in order :: key in memory.entries)
    ensures Holds(Load(Lines(memory, order)), memory, order)
  {
    if order != [] {
      var shorter, key := order[..|order| - 1], order[|order| - 1];
      assert order == shorter + [key] && key !in shorter;
      LoadLines(memory, shorter);
      var lines := Lines(memory, order);
      assert lines[..|lines| - 1] == Lines(memory, shorter);
      assert lines[|lines| - 1] == memory.entries[key] && Keepable(memory.entries[key]);
      HoldsOneMore(Load(Lines(memory, shorter)), memory, shorter, key);
    }
  }

  predicate Usable(entry: Entry, locale: string) {
    entry.tgtLang == locale && entry.textHash != "" && !IsBlank(entry.translated)
  }

  /** The index by text hash: of several usable entries with one hash, the last. */
  function TextIndex(order: seq<CacheKey>, entries: map<CacheKey, Entry>, locale: string): map<string, Entry> {
    if order == [] then map[]
    else
      var last, before := order[|order| - 1], TextIndex(order[..|order| - 1], entries, locale);
      if last in entries && Usable(entries[last], locale) then before[entries[last].textHash := entries[last]]
          else before
  }

  /** A hash is indexed exactly when some usable entry has it, and then by one that does. */
  lemma {:induction false} TextIndexFinds(order: seq<CacheKey>, entries: map<CacheKey, Entry>, locale: string,
        hash: string)
    ensures var index := TextIndex(order, entries, locale);
            && (hash in index ==> Usable(index[hash], locale) && index[hash].textHash == hash)
            && (hash in index <==>
                exists key :: key in order && key in entries && Usable(entries[key], locale)
                    && entries[key].textHash == hash)
  {
    if order != [] {
      var last, before := order[|order| - 1], order[..|order| - 1];
      assert order == before + [last];
      TextIndexFinds(before, entries, locale, hash);
    }
  }

  /** The i-th entry translates a text with this hash into the locale, and not to a blank. */
  ghost predicate HasText(order: seq<CacheKey>, entries: map<CacheKey, Entry>, locale: string, hash: string, i: nat) {
    && i < |order| && order[i] in entries && hash != ""
    && var entry := entries[order[i]];
       entry.tgtLang == locale && entry.textHash == hash && !IsBlank(entry.translated)
  }

  /** The last entry, in insertion order, that does. */
  ghost predicate IsLastWithText(memory: Memory, locale: string, hash: string, entry: Entry) {
    exists i: nat ::
      && HasText(memory.order, memory.entries, locale, hash, i) && memory.entries[memory.order[i]] == entry
      && forall j: nat | i < j :: !HasText(memory.order, memory.entries, locale, hash, j)
  }

  lemma {:induction false} TextIndexIsLast(
      order: seq<CacheKey>, entries: map<CacheKey, Entry>, locale: string, hash: string)
    returns (i: nat)
    ensures var index := TextIndex(order, entries, locale);
            if hash in index then
              && HasText(order, entries, locale, hash, i) && entries[order[i]] == index[hash]
              && forall j: nat | i < j :: !HasText(order, entries, locale, hash, j)
            else forall j: nat :: !HasText(order, entries, locale, hash, j)
  {
    i := 0;
    if order != [] {
      var n := |order| - 1;
      var before, last := order[..n], order[n];
      i := TextIndexIsLast(before, entries, locale, hash);
      forall j: nat | j < n
        ensures HasText(order, entries, locale, hash, j) <==> HasText(before, entries, locale, hash, j)
      {
        assert before[j] == order[j];
      }
      if last in entries && Usable(entries[last], locale) && entries[last].textHash == hash {
        i := n;
      }
    }
  }

  /** The index holds the last entry for each text hash, and no other hashes. */
  lemma {:induction false} TextIndexHasLast(memory: Memory, locale: string, hash: string)
    ensures var index := TextIndex(memory.order, memory.entries, locale);
            && (hash in index <==> exists entry :: IsLastWithText(memory, locale, hash, entry))
            && (forall entry | IsLastWithText(memory, locale, hash, entry) :: hash in index && index[hash] == entry)
  {
    var i := TextIndexIsLast(memory.order, memory.entries, locale, hash);
    var index := TextIndex(memory.order, memory.entries, locale);
    hide TextIndex;
    if hash in index {
      assert IsLastWithText(memory, locale, hash, index[hash]);
    }
    forall entry | IsLastWithText(memory, locale, hash, entry) ensures hash in index && index[hash] == entry {
      var j: nat :| && HasText(memory.order, memory.entries, locale, hash, j)
                    && memory.entries[memory.order[j]] == entry
                    && forall m: nat | j < m :: !HasText(memory.order, memory.entries, locale, hash, m);
      assert hash in index;
      assert i == j;
    }
  }

  method BuildTranslationMemoryByTextHash(memory: Memory, locale: string) returns (byTextHash: map<string, Entry>)
    requires memory.Valid()
    ensures byTextHash == TextIndex(memory.order, memory.entries, locale)
  {
    byTextHash := map[];
    for n := 0 to |memory.order|
      invariant byTextHash == TextIndex(memory.order[..n], memory.entries, locale)
    {
      var entry := memory.entries[memory.order[n]];
      assert memory.order[..n + 1][..n] == memory.order[..n];
      if Usable(entry, locale) {
        byTextHash := byTextHash[entry.textHash := entry];
      }
    }
    assert memory.order[..|memory.order|] == memory.order;
  }
}
