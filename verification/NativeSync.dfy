/** Translating the strings of the native apps: `translateNativeEntries`
    (scripts/control-ui-i18n.ts) and `syncNativeLocale` (scripts/native-app-i18n.ts),
    which keeps one artifact per locale up to date. */
module NativeSync {
  import opened Basics
  import opened TranslationBatches
  import opened BatchTranslation
  import TranslationSync

  /** A string found in an app. */
  datatype NativeEntry = NativeEntry(id: string, source: string)

  datatype TranslatedEntry = TranslatedEntry(id: string, source: string, translated: string)

  datatype Artifact = Artifact(locale: string, glossaryHash: string, entries: seq<TranslatedEntry>)

  /** The hash of a text, whether two texts have the same placeholders and line breaks,
      and the character budget of a batch. */
  datatype Settings = Settings(hash: string -> string, sameTokens: (string, string) -> bool, budget: real)

  // ------------------------------------------------------- translating the entries

  function ItemsFor(settings: Settings, entries: seq<NativeEntry>): (items: seq<BatchItem>)
    ensures |items| == |entries|
    ensures forall i | 0 <= i < |items| :: items[i].key == entries[i].id && items[i].text == entries[i].source
  {
    seq(|entries|, i requires 0 <= i < |entries| =>
      BatchItem(Segment(entries[i].id, settings.hash(entries[i].source)), entries[i].id, entries[i].source,
                settings.hash(entries[i].source)))
  }

  const NO_PROVIDER := "native app translation requires OPENAI_API_KEY or ANTHROPIC_API_KEY"

  /** The provider that is asked; without one nobody is. */
  function Asked(provider: Option<Provider>): Provider {
    if provider.Some? then provider.value else (n: nat) => Fault("")
  }

  /** Batches are translated one after the other; the first failure ends the run. */
  method TranslateEntries(settings: Settings, entries: seq<NativeEntry>, provider: Provider)
    returns (result: Result<map<string, string>, string>, prompts: nat)
    ensures prompts <= 4 * |entries|
    ensures result.Failure? ==> prompts > 0 && FailedWith(provider, prompts - 1, result.error)
    ensures result.Success? ==> Faithful(provider, 0, prompts, ItemsFor(settings, entries), result.value)
  {
    hide *;
    var pending := ItemsFor(settings, entries);
    var batches := BuildTranslationBatches(pending, settings.budget);
    TranslationSync.AllBatches(batches, pending, settings.budget);
    TranslationSync.FaithfulToNothing(provider);
    var translated: map<string, string> := map[];
    prompts := 0;
    ghost var sent: seq<BatchItem> := [];
    for b := 0 to |batches|
      invariant sent + Concat(batches[b..]) == pending && prompts <= 4 * |sent|
      invariant Faithful(provider, 0, prompts, sent, translated)
    {
      TranslationSync.NextBatch(batches, pending, settings.budget, sent, b);
      var values, used := TranslationSync.TranslateOne(batches[b], settings.budget, prompts, provider);
      if values.Failure? {
        return values, prompts + used;
      }
      TranslationSync.FaithfulBoth(provider, prompts, prompts + used, sent, batches[b], translated, values.value);
      translated := translated + values.value;
      prompts := prompts + used;
      sent := sent + batches[b];
    }
    TranslationSync.NoBatchLeft(batches, sent);
    result := Success(translated);
  }

  /** Without a provider nothing is sent. With one, a failure is what the last prompt came
      to; on success the ids are exactly those of the entries, each with a text that is
      not blank and that the provider sent for it. */
  method TranslateNativeEntries(settings: Settings, entries: seq<NativeEntry>, available: Option<Provider>)
    returns (result: Result<map<string, string>, string>, prompts: nat)
    ensures prompts <= 4 * |entries|
    ensures available.None? ==> result == Failure(NO_PROVIDER) && prompts == 0
    ensures available.Some? && result.Failure? ==>
              prompts > 0 && FailedWith(available.value, prompts - 1, result.error)
    ensures result.Success? ==> Faithful(Asked(available), 0, prompts, ItemsFor(settings, entries), result.value)
  {
    if available.None? {
      return Failure(NO_PROVIDER), 0;
    }
    result, prompts := TranslateEntries(settings, entries, available.value);
  }

  // ------------------------------------------------------------------- the artifact

  /** The last entry with an id, as the map by id has it. */
  function ById(entries: seq<TranslatedEntry>, id: string): (found: Option<TranslatedEntry>)
    ensures found.Some? ==> found.value.id == id && exists i | 0 <= i < |entries| :: entries[i] == found.value
    ensures found.None? ==> forall i | 0 <= i < |entries| :: entries[i].id != id
    decreases |entries|
  {
    if entries == [] then None
    else if entries[|entries| - 1].id == id then Some(entries[|entries| - 1])
    else ById(entries[..|entries| - 1], id)
  }

  predicate IsPending(previous: Artifact, glossaryHash: string, entry: NativeEntry) {
    var current := ById(previous.entries, entry.id);
    previous.glossaryHash != glossaryHash || current.None? || current.value.source != entry.source
    || IsBlank(current.value.translated)
  }

  function PendingOf(previous: Artifact, glossaryHash: string, entries: seq<NativeEntry>): (pending: seq<NativeEntry>) {
    if entries == [] then []
    else
      PendingOf(previous, glossaryHash, entries[..|entries| - 1])
      + if IsPending(previous, glossaryHash, entries[|entries| - 1]) then [entries[|entries| - 1]] else []
  }

  lemma {:induction false} PendingHas(previous: Artifact, glossaryHash: string, entries: seq<NativeEntry>,
        entry: NativeEntry)
    ensures entry in PendingOf(previous, glossaryHash, entries) <==>
              entry in entries && IsPending(previous, glossaryHash, entry)
    decreases |entries|
  {
    hide IsPending;
    if entries != [] {
      PendingHas(previous, glossaryHash, entries[..|entries| - 1], entry);
      assert entries == entries[..|entries| - 1] + [entries[|entries| - 1]];
    }
  }

  lemma {:induction false} NothingPending(previous: Artifact, glossaryHash: string, entries: seq<NativeEntry>)
    ensures PendingOf(previous, glossaryHash, entries) == [] <==>
              forall i | 0 <= i < |entries| :: !IsPending(previous, glossaryHash, entries[i])
    decreases |entries|
  {
    hide IsPending;
    if entries != [] {
      NothingPending(previous, glossaryHash, entries[..|entries| - 1]);
    }
  }

  function TranslationFor(previous: Artifact, translated: map<string, string>, entry: NativeEntry): string {
    if entry.id in translated then translated[entry.id]
    else
      var current := ById(previous.entries, entry.id);
      if current.Some? then current.value.translated else entry.source
  }

  function EntriesFor(previous: Artifact, translated: map<string, string>,
        entries: seq<NativeEntry>): (next: seq<TranslatedEntry>)
    ensures |next| == |entries|
    ensures forall i | 0 <= i < |next| ::
              next[i] == TranslatedEntry(entries[i].id, entries[i].source,
                TranslationFor(previous, translated, entries[i]))
  {
    seq(|entries|, i requires 0 <= i < |entries| =>
      TranslatedEntry(entries[i].id, entries[i].source, TranslationFor(previous, translated, entries[i])))
  }

  const EMPTY := Artifact("", "", [])

  /** What one sync comes to: the artifact written, if it changed, or an error that
      leaves the old one in place. */
  datatype Outcome =
    | Synced(artifact: Artifact, changed: bool)
    | TranslationFailed(message: string)
    | TokensChanged(id: string)

  /** The id is that of the first entry whose translation changed the placeholders. */
  ghost predicate IsFirstChanged(settings: Settings, artifact: Artifact, id: string) {
    exists i: nat | i < |artifact.entries| ::
      && artifact.entries[i].id == id
      && !settings.sameTokens(artifact.entries[i].source, artifact.entries[i].translated)
      && forall j | 0 <= j < i ::
           settings.sameTokens(artifact.entries[j].source, artifact.entries[j].translated)
  }

  /** The i-th stored entry is the last with this id. */
  predicate IsLastStored(stored: seq<TranslatedEntry>, id: string, i: nat) {
    i < |stored| && stored[i].id == id && forall j | i < j < |stored| :: stored[j].id != id
  }

  /** An entry is due for translation if the glossary has changed, or the last stored
      entry with its id is missing, has another source, or has a blank text. */
  predicate IsDue(previous: Artifact, glossaryHash: string, entry: NativeEntry) {
    || previous.glossaryHash != glossaryHash
    || (forall i | 0 <= i < |previous.entries| :: previous.entries[i].id != entry.id)
    || exists i | 0 <= i < |previous.entries| && IsLastStored(previous.entries, entry.id, i) ::
         previous.entries[i].source != entry.source || IsBlank(previous.entries[i].translated)
  }

  /** A synced entry stands for its source entry. If an entry with its id was due, the
      provider sent the text for that id during this run; otherwise it is the stored one. */
  ghost predicate IsUpToDate(
      previous: Artifact, glossaryHash: string, entries: seq<NativeEntry>, provider: Provider, prompts: nat, i: nat,
      synced: TranslatedEntry)
    requires i < |entries|
  {
    var id := entries[i].id;
    && synced.id == id && synced.source == entries[i].source
    && if exists j | 0 <= j < |entries| :: entries[j].id == id && IsDue(previous, glossaryHash, entries[j])
       then SentDuring(provider, 0, prompts, id, synced.translated)
       else exists k: nat :: IsLastStored(previous.entries, id, k)
                             && synced.translated == previous.entries[k].translated
  }

  lemma {:induction false} ByIdIsLast(stored: seq<TranslatedEntry>, id: string)
    ensures if ById(stored, id).Some?
            then exists i: nat :: IsLastStored(stored, id, i) && stored[i] == ById(stored, id).value
            else forall i | 0 <= i < |stored| :: stored[i].id != id
    decreases |stored|
  {
    if stored != [] {
      var n := |stored| - 1;
      if stored[n].id == id {
        assert IsLastStored(stored, id, n);
      } else {
        ByIdIsLast(stored[..n], id);
        if ById(stored[..n], id).Some? {
          var i: nat :| IsLastStored(stored[..n], id, i) && stored[..n][i] == ById(stored[..n], id).value;
          assert IsLastStored(stored, id, i);
        }
      }
    }
  }

  lemma {:induction false} PendingIffDue(previous: Artifact, glossaryHash: string, entry: NativeEntry)
    ensures IsPending(previous, glossaryHash, entry) <==> IsDue(previous, glossaryHash, entry)
  {
    ByIdIsLast(previous.entries, entry.id);
    hide ById, IsBlank;
    if ById(previous.entries, entry.id).Some? {
      var i: nat :| IsLastStored(previous.entries, entry.id, i)
                    && previous.entries[i] == ById(previous.entries, entry.id).value;
      forall j: nat | IsLastStored(previous.entries, entry.id, j) ensures j == i {
      }
    }
  }

  lemma {:induction false} EntryIsUpToDate(
      settings: Settings, previous: Artifact, glossaryHash: string, entries: seq<NativeEntry>, provider: Provider,
      prompts: nat, translated: map<string, string>, i: nat)
    requires Faithful(provider, 0, prompts, ItemsFor(settings, PendingOf(previous, glossaryHash, entries)), translated)
    requires i < |entries|
    ensures IsUpToDate(previous, glossaryHash, entries, provider, prompts, i,
                       EntriesFor(previous, translated, entries)[i])
  {
    var id := entries[i].id;
    TranslatedIffDue(settings, previous, glossaryHash, entries, provider, prompts, translated, id);
    EveryEntryIsCovered(settings, previous, glossaryHash, entries, provider, prompts, translated, i);
    ByIdIsLast(previous.entries, id);
    hide PendingOf, ItemsFor, ById, IsDue, SentDuring;
  }

  lemma {:induction false} TranslatedIffDue(
      settings: Settings, previous: Artifact, glossaryHash: string, entries: seq<NativeEntry>, provider: Provider,
      prompts: nat, translated: map<string, string>, id: string)
    requires Faithful(provider, 0, prompts, ItemsFor(settings, PendingOf(previous, glossaryHash, entries)), translated)
    ensures id in translated <==>
              exists j | 0 <= j < |entries| :: entries[j].id == id && IsDue(previous, glossaryHash, entries[j])
  {
    var pending := PendingOf(previous, glossaryHash, entries);
    var items := ItemsFor(settings, pending);
    KeysAreKeys(items, id);
    hide PendingOf, ItemsFor, ById, IsPending, IsDue;
    forall j | 0 <= j < |entries| ensures entries[j] in pending <==> IsDue(previous, glossaryHash, entries[j]) {
      PendingHas(previous, glossaryHash, entries, entries[j]);
      PendingIffDue(previous, glossaryHash, entries[j]);
    }
    if id in translated {
      var k :| 0 <= k < |items| && items[k].key == id;
      PendingHas(previous, glossaryHash, entries, pending[k]);
      var j :| 0 <= j < |entries| && entries[j] == pending[k];
      assert entries[j] in pending;
    }
    if j :| 0 <= j < |entries| && entries[j].id == id && IsDue(previous, glossaryHash, entries[j]) {
      var k :| 0 <= k < |pending| && pending[k] == entries[j];
      assert items[k].key == id;
    }
  }

  predicate KeepsTokens(settings: Settings, artifact: Artifact) {
    forall i | 0 <= i < |artifact.entries| ::
        settings.sameTokens(artifact.entries[i].source, artifact.entries[i].translated)
  }

  /** The loop that looks for a translation that changed placeholders or line breaks. */
  method FindChangedTokens(settings: Settings, artifact: Artifact) returns (id: Option<string>)
    ensures id.None? <==> KeepsTokens(settings, artifact)
    ensures id.Some? ==> IsFirstChanged(settings, artifact, id.value)
  {
    for i := 0 to |artifact.entries|
      invariant forall j | 0 <= j < i :: settings.sameTokens(artifact.entries[j].source, artifact.entries[j].translated)
    {
      if !settings.sameTokens(artifact.entries[i].source, artifact.entries[i].translated) {
        return Some(artifact.entries[i].id);
      }
    }
    return None;
  }

  /** `syncNativeLocale`. `stored` is what was read; nothing if there was no readable
      file. `translated` is what this run had translated. */
  method SyncNativeLocale(settings: Settings, locale: string, glossaryHash: string, entries: seq<NativeEntry>,
                          stored: Option<Artifact>, provider: Option<Provider>)
    returns (outcome: Outcome, prompts: nat, ghost translated: map<string, string>)
    ensures var previous := if stored.Some? then stored.value else EMPTY;
            var pending := PendingOf(previous, glossaryHash, entries);
            && prompts <= 4 * |pending|
            && (outcome.TranslationFailed? ==> pending != [])
            && (provider.Some? && outcome.TranslationFailed? ==>
                  prompts > 0 && FailedWith(provider.value, prompts - 1, outcome.message))
            && (provider.None? && pending != [] ==> outcome == TranslationFailed(NO_PROVIDER) && prompts == 0)
            && (!outcome.TranslationFailed? ==>
                  var artifact := Artifact(locale, glossaryHash, EntriesFor(previous, translated, entries));
                  && Faithful(Asked(provider), 0, prompts, ItemsFor(settings, pending), translated)
                  && (if KeepsTokens(settings, artifact) then outcome == Synced(artifact, stored != Some(artifact))
                      else outcome.TokensChanged? && IsFirstChanged(settings, artifact, outcome.id)))
            && (outcome.Synced? ==>
                  && outcome.artifact.locale == locale && outcome.artifact.glossaryHash == glossaryHash
                  && outcome.changed == (stored != Some(outcome.artifact))
                  && |outcome.artifact.entries| == |entries|
                  && forall i: nat | i < |entries| ::
                       IsUpToDate(previous, glossaryHash, entries, Asked(provider), prompts, i,
                                  outcome.artifact.entries[i]))
  {
    var previous := if stored.Some? then stored.value else EMPTY;
    var pending := PendingOf(previous, glossaryHash, entries);
    var values: map<string, string> := map[];
    prompts, translated := 0, map[];
    if |pending| > 0 {
      var result;
      result, prompts := TranslateNativeEntries(settings, pending, provider);
      if result.Failure? {
        return TranslationFailed(result.error), prompts, map[];
      }
      values := result.value;
    } else {
      TranslationSync.FaithfulToNothing(Asked(provider));
      assert ItemsFor(settings, pending) == [];
    }
    translated := values;
    hide Faithful, PendingOf, TranslationFor, IsUpToDate, FailedWith, ItemsFor;
    var artifact := Artifact(locale, glossaryHash, EntriesFor(previous, values, entries));
    AllUpToDate(settings, previous, glossaryHash, entries, Asked(provider), prompts, translated);
    hide EntriesFor, IsFirstChanged, KeepsTokens;
    var changedId := FindChangedTokens(settings, artifact);
    if changedId.Some? {
      outcome := TokensChanged(changedId.value);
      return;
    }
    outcome := Synced(artifact, stored != Some(artifact));
  }

  lemma {:induction false} AllUpToDate(
      settings: Settings, previous: Artifact, glossaryHash: string, entries: seq<NativeEntry>, provider: Provider,
      prompts: nat, translated: map<string, string>)
    requires Faithful(provider, 0, prompts, ItemsFor(settings, PendingOf(previous, glossaryHash, entries)), translated)
    ensures forall i: nat | i < |entries| ::
              IsUpToDate(previous, glossaryHash, entries, provider, prompts, i,
                         EntriesFor(previous, translated, entries)[i])
  {
    hide IsUpToDate;
    forall i: nat | i < |entries|
      ensures IsUpToDate(previous, glossaryHash, entries, provider, prompts, i,
                         EntriesFor(previous, translated, entries)[i])
    {
      EntryIsUpToDate(settings, previous, glossaryHash, entries, provider, prompts, translated, i);
    }
  }

  // ------------------------------------------------------------------ a second sync

  /** A completed sync leaves no blank translation. */
  lemma {:induction false} NothingIsBlank(settings: Settings, previous: Artifact, glossaryHash: string,
        entries: seq<NativeEntry>, provider: Provider, prompts: nat, translated: map<string, string>)
    requires Faithful(provider, 0, prompts, ItemsFor(settings, PendingOf(previous, glossaryHash, entries)), translated)
    ensures forall i | 0 <= i < |entries| :: !IsBlank(TranslationFor(previous, translated, entries[i]))
  {
    var pending := PendingOf(previous, glossaryHash, entries);
    var items := ItemsFor(settings, pending);
    hide PendingOf, ItemsFor, ById;
    forall i | 0 <= i < |entries| ensures !IsBlank(TranslationFor(previous, translated, entries[i])) {
      PendingHas(previous, glossaryHash, entries, entries[i]);
      if IsPending(previous, glossaryHash, entries[i]) {
        var j :| 0 <= j < |pending| && pending[j] == entries[i];
        assert items[j].key == entries[i].id;
        KeysAreKeys(items, entries[i].id);
      }
    }
  }

  /** Every entry has a translation of this run or an earlier one. */
  ghost predicate IsCovered(previous: Artifact, translated: map<string, string>, entry: NativeEntry) {
    entry.id in translated || ById(previous.entries, entry.id).Some?
  }

  lemma {:induction false} EveryEntryIsCovered(settings: Settings, previous: Artifact, glossaryHash: string,
        entries: seq<NativeEntry>, provider: Provider, prompts: nat, translated: map<string, string>, i: nat)
    requires Faithful(provider, 0, prompts, ItemsFor(settings, PendingOf(previous, glossaryHash, entries)), translated)
    requires i < |entries|
    ensures IsCovered(previous, translated, entries[i])
  {
    var pending := PendingOf(previous, glossaryHash, entries);
    var items := ItemsFor(settings, pending);
    hide PendingOf, ItemsFor, ById;
    PendingHas(previous, glossaryHash, entries, entries[i]);
    if IsPending(previous, glossaryHash, entries[i]) {
      var j :| 0 <= j < |pending| && pending[j] == entries[i];
      assert items[j].key == entries[i].id;
      KeysAreKeys(items, entries[i].id);
    }
  }

  lemma {:induction false} ByIdOfArtifact(previous: Artifact, translated: map<string, string>,
        entries: seq<NativeEntry>, i: nat)
    requires i < |entries| && IsCovered(previous, translated, entries[i])
    ensures var found := ById(EntriesFor(previous, translated, entries), entries[i].id);
            && found.Some? && found.value.translated == TranslationFor(previous, translated, entries[i])
            && exists j | 0 <= j < |entries| ::
                 entries[j].id == entries[i].id && entries[j].source == found.value.source
  {
    var next := EntriesFor(previous, translated, entries);
    assert next[i].id == entries[i].id;
    var found := ById(next, entries[i].id);
    hide EntriesFor, ById, IsBlank;
    var j :| 0 <= j < |next| && next[j] == found.value;
    assert entries[j].id == entries[i].id;
    assert TranslationFor(previous, translated, entries[j]) == TranslationFor(previous, translated, entries[i]) by {
      SameIdSameTranslation(previous, translated, entries[i], entries[j]);
    }
  }

  lemma {:induction false} SameIdSameTranslation(previous: Artifact, translated: map<string, string>, a: NativeEntry,
        b: NativeEntry)
    requires a.id == b.id && IsCovered(previous, translated, a)
    ensures TranslationFor(previous, translated, a) == TranslationFor(previous, translated, b)
  {
  }

  /** No two entries share an id but differ in their source. */
  ghost predicate IdsTellSources(entries: seq<NativeEntry>) {
    forall i, j | 0 <= i < |entries| && 0 <= j < |entries| && entries[i].id == entries[j].id ::
      entries[i].source == entries[j].source
  }

  /** Syncing the same entries and glossary again finds nothing to translate exactly if
      ids tell sources apart. */
  lemma {:induction false} SecondSyncIsIdleIff(settings: Settings, locale: string, glossaryHash: string,
        previous: Artifact, entries: seq<NativeEntry>, provider: Provider, prompts: nat,
        translated: map<string, string>)
    requires Faithful(provider, 0, prompts, ItemsFor(settings, PendingOf(previous, glossaryHash, entries)), translated)
    ensures var artifact := Artifact(locale, glossaryHash, EntriesFor(previous, translated, entries));
            PendingOf(artifact, glossaryHash, entries) == [] <==> IdsTellSources(entries)
  {
    var artifact := Artifact(locale, glossaryHash, EntriesFor(previous, translated, entries));
    hide *;
    NothingIsBlank(settings, previous, glossaryHash, entries, provider, prompts, translated);
    NothingPending(artifact, glossaryHash, entries);
    forall i: nat | i < |entries| ensures IsAnswered(artifact, entries, i) {
      EveryEntryIsCovered(settings, previous, glossaryHash, entries, provider, prompts, translated, i);
      ByIdOfArtifact(previous, translated, entries, i);
      AnswersFrom(artifact, entries, i);
    }
    if IdsTellSources(entries) {
      IdleIfIdsTell(artifact, glossaryHash, entries);
    } else {
      BusyIfNot(artifact, glossaryHash, entries);
    }
  }

  /** The artifact has a text for the entry's id, next to the source of some entry with
      that id. */
  ghost predicate IsAnswered(artifact: Artifact, entries: seq<NativeEntry>, i: nat)
    requires i < |entries|
  {
    var found := ById(artifact.entries, entries[i].id);
    && found.Some? && !IsBlank(found.value.translated)
    && exists j | 0 <= j < |entries| :: entries[j].id == entries[i].id && entries[j].source == found.value.source
  }

  lemma {:induction false} AnswersFrom(artifact: Artifact, entries: seq<NativeEntry>, i: nat)
    requires i < |entries|
    requires var found := ById(artifact.entries, entries[i].id);
             && found.Some? && !IsBlank(found.value.translated)
             && exists j | 0 <= j < |entries| ::
                  entries[j].id == entries[i].id && entries[j].source == found.value.source
    ensures IsAnswered(artifact, entries, i)
  {
  }

  lemma {:induction false} IdleIfIdsTell(artifact: Artifact, glossaryHash: string, entries: seq<NativeEntry>)
    requires artifact.glossaryHash == glossaryHash && IdsTellSources(entries)
    requires forall i: nat | i < |entries| :: IsAnswered(artifact, entries, i)
    ensures forall i | 0 <= i < |entries| :: !IsPending(artifact, glossaryHash, entries[i])
  {
    hide ById, IsBlank, IsAnswered, IsPending, IdsTellSources;
    forall i | 0 <= i < |entries| ensures !IsPending(artifact, glossaryHash, entries[i]) {
      IdleEntry(artifact, glossaryHash, entries, i);
    }
  }

  lemma {:induction false} IdleEntry(artifact: Artifact, glossaryHash: string, entries: seq<NativeEntry>, i: nat)
    requires artifact.glossaryHash == glossaryHash && IdsTellSources(entries) && i < |entries|
              && IsAnswered(artifact, entries, i)
    ensures !IsPending(artifact, glossaryHash, entries[i])
  {
    hide ById, IsBlank;
  }

  lemma {:induction false} BusyIfNot(artifact: Artifact, glossaryHash: string, entries: seq<NativeEntry>)
    requires artifact.glossaryHash == glossaryHash && !IdsTellSources(entries)
    ensures exists i | 0 <= i < |entries| :: IsPending(artifact, glossaryHash, entries[i])
  {
    var i, j := TwoSources(entries);
    hide ById, IsBlank;
    assert IsPending(artifact, glossaryHash, entries[i]) || IsPending(artifact, glossaryHash, entries[j]);
  }

  lemma {:induction false} TwoSources(entries: seq<NativeEntry>) returns (i: nat, j: nat)
    requires !IdsTellSources(entries)
    ensures i < |entries| && j < |entries| && entries[i].id == entries[j].id && entries[i].source != entries[j].source
  {
    i, j :| i < |entries| && j < |entries| && entries[i].id == entries[j].id && entries[i].source != entries[j].source;
  }

  /** An idle sync writes nothing: it produces the artifact it read. */
  lemma {:induction false} IdleSyncKeepsArtifact(settings: Settings, locale: string, glossaryHash: string,
        previous: Artifact, entries: seq<NativeEntry>, provider: Provider, prompts: nat,
        translated: map<string, string>)
    requires Faithful(provider, 0, prompts, ItemsFor(settings, PendingOf(previous, glossaryHash, entries)), translated)
    ensures var artifact := Artifact(locale, glossaryHash, EntriesFor(previous, translated, entries));
            Artifact(locale, glossaryHash, EntriesFor(artifact, map[], entries)) == artifact
  {
    var artifact := Artifact(locale, glossaryHash, EntriesFor(previous, translated, entries));
    var again := EntriesFor(artifact, map[], entries);
    forall i: nat | i < |entries| ensures again[i] == artifact.entries[i] {
      EveryEntryIsCovered(settings, previous, glossaryHash, entries, provider, prompts, translated, i);
      ByIdOfArtifact(previous, translated, entries, i);
    }
  }

  /** Two syncs in a row. If ids tell sources apart, the second sends no prompt, and
      writes nothing, and reports so, with or without a provider. */
  method SyncTwice(settings: Settings, locale: string, glossaryHash: string, entries: seq<NativeEntry>,
                   stored: Option<Artifact>, provider: Option<Provider>, again: Option<Provider>)
    returns (first: Outcome, second: Outcome, prompts: nat)
    requires IdsTellSources(entries)
    ensures first.Synced? ==> prompts == 0 && second == Synced(first.artifact, false)
  {
    hide PendingOf, EntriesFor, ById, Faithful, TranslationFor, KeepsTokens;
    var previous := if stored.Some? then stored.value else EMPTY;
    var spent;
    ghost var translated, nothing;
    first, spent, translated := SyncNativeLocale(settings, locale, glossaryHash, entries, stored, provider);
    second, prompts := first, 0;
    if first.Synced? {
      SecondSyncIsIdleIff(settings, locale, glossaryHash, previous, entries, Asked(provider), spent, translated);
      IdleSyncKeepsArtifact(settings, locale, glossaryHash, previous, entries, Asked(provider), spent, translated);
      second, prompts, nothing := SyncNativeLocale(settings, locale, glossaryHash, entries, Some(first.artifact),
        again);
      FaithfulToNoItems(Asked(again), prompts, ItemsFor(settings, []), nothing);
    }
  }

  lemma {:induction false} FaithfulToNoItems(provider: Provider, prompts: nat, items: seq<BatchItem>,
        values: map<string, string>)
    ensures items == [] && Faithful(provider, 0, prompts, items, values) ==> values == map[]
  {
  }
}
