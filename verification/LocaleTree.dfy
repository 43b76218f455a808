/** The nested locale map and its dotted keys (scripts/control-ui-i18n.ts):
    `flattenTranslations`, `setNestedValue`, and when one undoes the other. */
module LocaleTree {
  import opened Basics

  /** A locale map: named fields in order, each a text or an inner map. */
  datatype Node = Text(text: string) | Inner(fields: Fields)
  datatype Fields = Empty | Field(name: string, value: Node, rest: Fields)

  predicate HasField(fields: Fields, name: string) {
    fields.Field? && (fields.name == name || HasField(fields.rest, name))
  }

  /** An object has one field a name, at every level. */
  predicate WellFormed(fields: Fields) {
    fields.Field? ==>
      && !HasField(fields.rest, fields.name)
      && (fields.value.Inner? ==> WellFormed(fields.value.fields))
      && WellFormed(fields.rest)
  }

  function Get(fields: Fields, name: string): Option<Node> {
    if fields.Empty? then None
    else if fields.name == name then Some(fields.value)
    else Get(fields.rest, name)
  }

  /** `fields[name] = value`: a known field keeps its place, a new one goes last. */
  function Assign(fields: Fields, name: string, value: Node): Fields {
    if fields.Empty? then Field(name, value, Empty)
    else if fields.name == name then fields.(value := value)
    else fields.(rest := Assign(fields.rest, name, value))
  }

  function Append(fields: Fields, more: Fields): Fields {
    if fields.Empty? then more else fields.(rest := Append(fields.rest, more))
  }

  // ------------------------------------------------------------ dotted keys

  function Join(path: seq<string>): string
    requires path != []
  {
    if |path| == 1 then path[0] else Join(path[..|path| - 1]) + "." + path[|path| - 1]
  }

  function Split(key: string): (parts: seq<string>)
    ensures parts != []
  {
    if key == "" then [""]
    else
      var parts, c := Split(key[..|key| - 1]), key[|key| - 1];
      if c == '.' then parts + [""] else parts[..|parts| - 1] + [parts[|parts| - 1] + [c]]
  }

  predicate DotFree(name: string) {
    forall i | 0 <= i < |name| :: name[i] != '.'
  }

  predicate AllDotFree(path: seq<string>) {
    forall i | 0 <= i < |path| :: DotFree(path[i])
  }

  lemma {:induction false} SplitPiecesAreDotFree(key: string)
    ensures AllDotFree(Split(key))
  {
    if key != "" { SplitPiecesAreDotFree(key[..|key| - 1]); }
  }

  lemma {:induction false} SplitLastPiece(key: string, name: string)
    requires DotFree(name)
    ensures Split(key + "." + name) == Split(key) + [name]
  {
    var whole := key + "." + name;
    if name == "" {
      assert whole[..|whole| - 1] == key;
    } else {
      SplitLastPiece(key, name[..|name| - 1]);
      assert whole[..|whole| - 1] == key + "." + name[..|name| - 1];
      assert name == name[..|name| - 1] + [name[|name| - 1]];
    }
  }

  lemma {:induction false} SplitSinglePiece(name: string)
    requires DotFree(name)
    ensures Split(name) == [name]
  {
    if name != "" {
      SplitSinglePiece(name[..|name| - 1]);
      assert name == name[..|name| - 1] + [name[|name| - 1]];
    }
  }

  /** Splitting a dotted key gives back the names it was joined from. */
  lemma {:induction false} SplitJoin(path: seq<string>)
    requires path != [] && AllDotFree(path)
    ensures Split(Join(path)) == path
  {
    if |path| == 1 {
      SplitSinglePiece(path[0]);
    } else {
      SplitJoin(path[..|path| - 1]);
      SplitLastPiece(Join(path[..|path| - 1]), path[|path| - 1]);
    }
  }

  lemma {:induction false} JoinSplit(key: string)
    ensures Join(Split(key)) == key
  {
    if key != "" {
      var init, c := key[..|key| - 1], key[|key| - 1];
      JoinSplit(init);
      assert key == init + [c];
      JoinWithDot(Split(init));
      JoinLongerLast(Split(init), c);
    }
  }

  lemma {:induction false} JoinWithDot(parts: seq<string>)
    requires parts != []
    ensures Join(parts + [""]) == Join(parts) + "."
  {
    assert (parts + [""])[..|parts|] == parts;
  }

  lemma {:induction false} JoinLongerLast(parts: seq<string>, c: char)
    requires parts != []
    ensures Join(parts[..|parts| - 1] + [parts[|parts| - 1] + [c]]) == Join(parts) + [c]
  {
    var n := |parts| - 1;
    assert (parts[..n] + [parts[n] + [c]])[..n] == parts[..n];
    if n > 0 {
      assert Join(parts[..n]) + "." + (parts[n] + [c]) == (Join(parts[..n]) + "." + parts[n]) + [c];
    }
  }

  // ---------------------------------------------------- setting by dotted key

  /** Names every plain object inherits; reading one yields an inherited object. */
  const INHERITED: set<string> := {
    "constructor", "toString", "toLocaleString", "valueOf", "hasOwnProperty", "isPrototypeOf",
    "propertyIsEnumerable", "__defineGetter__", "__defineSetter__", "__lookupGetter__", "__lookupSetter__",
      "__proto__" }

  /** `setNestedValue`, on the names of the key. A missing or textual step is
      replaced by an empty map; a missing step with an inherited name leads out of
      the tree, and so does a text assigned to `__proto__`. */
  function SetPath(fields: Fields, path: seq<string>, text: string): Fields
    requires path != []
    decreases |path|
  {
    var name := path[0];
    if |path| == 1 then
      if name == "__proto__" then fields else Assign(fields, name, Text(text))
    else
      match Get(fields, name)
      case Some(Inner(inner)) => Assign(fields, name, Inner(SetPath(inner, path[1..], text)))
      case Some(Text(_)) => Assign(fields, name, Inner(SetPath(Empty, path[1..], text)))
      case None =>
        if name in INHERITED then fields
        else Assign(fields, name, Inner(SetPath(Empty, path[1..], text)))
  }

  type Entry = (seq<string>, string)

  predicate Rooted(entries: seq<Entry>) {
    forall i | 0 <= i < |entries| :: entries[i].0 != []
  }

  /** Setting a list of paths one after the other. */
  function Build(fields: Fields, entries: seq<Entry>): Fields
    requires Rooted(entries)
    decreases |entries|
  {
    if entries == [] then fields
    else Build(SetPath(fields, entries[0].0, entries[0].1), entries[1..])
  }

  /** The texts of a tree with their paths, depth first. */
  function Entries(fields: Fields): (entries: seq<Entry>)
    ensures Rooted(entries)
  {
    match fields
    case Empty => []
    case Field(name, Text(text), rest) => [([name], text)] + Entries(rest)
    case Field(name, Inner(inner), rest) => Under(name, Entries(inner)) + Entries(rest)
  }

  function Under(name: string, entries: seq<Entry>): (under: seq<Entry>)
    ensures |under| == |entries|
    ensures forall i | 0 <= i < |under| :: under[i] == ([name] + entries[i].0, entries[i].1)
  {
    seq(|entries|, i requires 0 <= i < |entries| => ([name] + entries[i].0, entries[i].1))
  }

  /** The part of a tree that survives being rebuilt from its texts. */
  function Kept(fields: Fields): Fields {
    match fields
    case Empty => Empty
    case Field(name, Text(text), rest) =>
      if name == "__proto__" then Kept(rest) else Field(name, Text(text), Kept(rest))
    case Field(name, Inner(inner), rest) =>
      if Entries(inner) == [] || name in INHERITED then Kept(rest)
      else Field(name, Inner(Kept(inner)), Kept(rest))
  }

  lemma {:induction false} BuildParts(fields: Fields, a: seq<Entry>, b: seq<Entry>)
    requires Rooted(a) && Rooted(b)
    ensures Build(fields, a + b) == Build(Build(fields, a), b)
    decreases |a|
  {
    if a == [] {
      assert a + b == b;
    } else {
      assert (a + b)[0] == a[0] && (a + b)[1..] == a[1..] + b;
      BuildParts(SetPath(fields, a[0].0, a[0].1), a[1..], b);
    }
  }

  lemma {:induction false} AssignNew(fields: Fields, name: string, value: Node)
    requires !HasField(fields, name)
    ensures Assign(fields, name, value) == Append(fields, Field(name, value, Empty))
    ensures Get(fields, name) == None
    ensures Get(Append(fields, Field(name, value, Empty)), name) == Some(value)
  {
    if fields.Field? { AssignNew(fields.rest, name, value); }
  }

  lemma {:induction false} AssignLast(fields: Fields, name: string, before: Node, value: Node)
    requires !HasField(fields, name)
    ensures Assign(Append(fields, Field(name, before, Empty)), name, value) == Append(fields, Field(name, value, Empty))
  {
    if fields.Field? { AssignLast(fields.rest, name, before, value); }
  }

  lemma {:induction false} AppendAssociates(a: Fields, b: Fields, c: Fields)
    ensures Append(Append(a, b), c) == Append(a, Append(b, c))
  {
    if a.Field? { AppendAssociates(a.rest, b, c); }
  }

  lemma {:induction false} HasFieldAppend(a: Fields, b: Fields, name: string)
    ensures HasField(Append(a, b), name) <==> HasField(a, name) || HasField(b, name)
  {
    if a.Field? { HasFieldAppend(a.rest, b, name); }
  }

  /** Texts below one name build up one inner map, the rest being untouched. */
  lemma {:induction false} BuildUnder(fields: Fields, name: string, inner: Fields, entries: seq<Entry>)
    requires !HasField(fields, name) && Rooted(entries)
    ensures Build(Append(fields, Field(name, Inner(inner), Empty)), Under(name, entries))
         == Append(fields, Field(name, Inner(Build(inner, entries)), Empty))
    decreases |entries|
  {
    if entries != [] {
      var path, text := entries[0].0, entries[0].1;
      var inner' := SetPath(inner, path, text);
      AssignNew(fields, name, Inner(inner));
      AssignLast(fields, name, Inner(inner), Inner(inner'));
      assert ([name] + path)[1..] == path;
      assert Under(name, entries)[1..] == Under(name, entries[1..]);
      BuildUnder(fields, name, inner', entries[1..]);
    }
  }

  lemma {:induction false} BuildUnderNew(fields: Fields, name: string, entries: seq<Entry>)
    requires !HasField(fields, name) && Rooted(entries) && entries != [] && name !in INHERITED
    ensures Build(fields, Under(name, entries)) == Append(fields, Field(name, Inner(Build(Empty, entries)), Empty))
  {
    var path, text := entries[0].0, entries[0].1;
    AssignNew(fields, name, Inner(SetPath(Empty, path, text)));
    assert ([name] + path)[1..] == path;
    assert Under(name, entries)[1..] == Under(name, entries[1..]);
    BuildUnder(fields, name, SetPath(Empty, path, text), entries[1..]);
  }

  lemma {:induction false} BuildUnderInherited(fields: Fields, name: string, entries: seq<Entry>)
    requires !HasField(fields, name) && Rooted(entries) && name in INHERITED
    ensures Build(fields, Under(name, entries)) == fields
    decreases |entries|
  {
    if entries != [] {
      AssignNew(fields, name, Text(""));
      assert Under(name, entries)[1..] == Under(name, entries[1..]);
      BuildUnderInherited(fields, name, entries[1..]);
    }
  }

  ghost predicate DisjointFields(a: Fields, b: Fields) {
    forall name :: HasField(a, name) ==> !HasField(b, name)
  }

  /** Rebuilding a tree from its texts gives the part that is kept, fields in order. */
  lemma {:induction false} BuildKeeps(done: Fields, fields: Fields)
    requires WellFormed(fields) && DisjointFields(done, fields)
    ensures Build(done, Entries(fields)) == Append(done, Kept(fields))
    decreases fields
  {
    match fields
    case Empty =>
      AppendAssociates(done, Empty, Empty);
      AppendEmpty(done);
    case Field(name, value, rest) =>
      assert !HasField(done, name) by { assert HasField(fields, name); }
      var first := if value.Text? then [([name], value.text)] else Under(name, Entries(value.fields));
      BuildParts(done, first, Entries(rest));
      var kept :=
        if value.Text? then if name == "__proto__" then Empty else Field(name, value, Empty)
        else if Entries(value.fields) == [] || name in INHERITED then Empty
        else Field(name, Inner(Kept(value.fields)), Empty);
      assert Build(done, first) == Append(done, kept) by {
        AppendEmpty(done);
        if value.Text? {
          AssignNew(done, name, value);
          assert first[1..] == [];
        } else if name in INHERITED {
          BuildUnderInherited(done, name, Entries(value.fields));
        } else if Entries(value.fields) != [] {
          BuildUnderNew(done, name, Entries(value.fields));
          BuildKeeps(Empty, value.fields);
        }
      }
      forall other ensures HasField(Append(done, kept), other) ==> !HasField(rest, other) {
        HasFieldAppend(done, kept, other);
        assert HasField(rest, other) ==> HasField(fields, other);
      }
      BuildKeeps(Append(done, kept), rest);
      AppendAssociates(done, kept, Kept(rest));
  }

  lemma {:induction false} AppendEmpty(fields: Fields)
    ensures Append(fields, Empty) == fields
  {
    if fields.Field? { AppendEmpty(fields.rest); }
  }

  // -------------------------------------------------- flattening to dotted keys

  /** An insertion-ordered map of dotted keys to texts. */
  datatype Flat = Flat(order: seq<string>, texts: map<string, string>) {
    function Put(key: string, text: string): Flat {
      Flat(if key in texts then order else order + [key], texts[key := text])
    }
  }

  const NOTHING := Flat([], map[])

  /** The prefix counts only when it is not the empty string. */
  function FullKey(prefix: string, name: string): string {
    if prefix != "" then prefix + "." + name else name
  }

  function FlattenInto(fields: Fields, prefix: string, flat: Flat): Flat {
    match fields
    case Empty => flat
    case Field(name, Text(text), rest) => FlattenInto(rest, prefix, flat.Put(FullKey(prefix, name), text))
    case Field(name, Inner(inner), rest) =>
      FlattenInto(rest, prefix, FlattenInto(inner, FullKey(prefix, name), flat))
  }

  method FlattenTranslations(fields: Fields, prefix: string, flat: Flat) returns (result: Flat)
    ensures result == FlattenInto(fields, prefix, flat)
    decreases fields
  {
    result := flat;
    var left := fields;
    while left.Field?
      invariant FlattenInto(fields, prefix, flat) == FlattenInto(left, prefix, result)
      invariant left == fields || left < fields
      decreases left
    {
      var fullKey := FullKey(prefix, left.name);
      match left.value {
        case Text(text) => result := result.Put(fullKey, text);
        case Inner(inner) => result := FlattenTranslations(inner, fullKey, result);
      }
      left := left.rest;
    }
  }

  function Rebuild(fields: Fields, order: seq<string>, texts: map<string, string>): Fields
    requires forall i | 0 <= i < |order| :: order[i] in texts
    decreases |order|
  {
    if order == [] then fields
    else Rebuild(SetPath(fields, Split(order[0]), texts[order[0]]), order[1..], texts)
  }

  /** The loop that rebuilds a locale map from its flattened keys. */
  method RebuildLocale(order: seq<string>, texts: map<string, string>) returns (fields: Fields)
    requires forall i | 0 <= i < |order| :: order[i] in texts
    ensures fields == Rebuild(Empty, order, texts)
  {
    fields := Empty;
    for n := 0 to |order|
      invariant Rebuild(Empty, order, texts) == Rebuild(fields, order[n..], texts)
    {
      assert order[n..][1..] == order[n + 1..];
      fields := SetPath(fields, Split(order[n]), texts[order[n]]);
    }
  }

  /** Flattened and rebuilt. */
  function RoundTrip(fields: Fields): Fields
  {
    FlatIsKeyed(fields, "", NOTHING);
    Rebuild(Empty, FlattenInto(fields, "", NOTHING).order, FlattenInto(fields, "", NOTHING).texts)
  }

  ghost predicate IsKeyed(flat: Flat) {
    forall i | 0 <= i < |flat.order| :: flat.order[i] in flat.texts
  }

  lemma {:induction false} FlatIsKeyed(fields: Fields, prefix: string, flat: Flat)
    requires IsKeyed(flat)
    ensures IsKeyed(FlattenInto(fields, prefix, flat))
    decreases fields
  {
    match fields
    case Empty =>
    case Field(name, Text(text), rest) => FlatIsKeyed(rest, prefix, flat.Put(FullKey(prefix, name), text));
    case Field(name, Inner(inner), rest) =>
      FlatIsKeyed(inner, FullKey(prefix, name), flat);
      FlatIsKeyed(rest, prefix, FlattenInto(inner, FullKey(prefix, name), flat));
  }

  // ----------------------------------------------------- when they are inverse

  /** No name contains a dot. */
  predicate Dotless(fields: Fields) {
    fields.Field? ==>
      && DotFree(fields.name)
      && (fields.value.Inner? ==> Dotless(fields.value.fields))
      && Dotless(fields.rest)
  }

  /** Inner maps are not empty and do not carry an inherited name; no text is
      called `__proto__`. */
  predicate Solid(fields: Fields) {
    fields.Field? ==>
      && (match fields.value
          case Text(_) => fields.name != "__proto__"
          case Inner(inner) => inner.Field? && fields.name !in INHERITED && Solid(inner))
      && Solid(fields.rest)
  }

  /** No inner map at the top level has the empty name. */
  predicate NamedTop(fields: Fields) {
    fields.Field? ==> (fields.value.Inner? ==> fields.name != "") && NamedTop(fields.rest)
  }

  function Size(fields: Fields): nat {
    match fields
    case Empty => 0
    case Field(_, Text(_), rest) => 1 + Size(rest)
    case Field(_, Inner(inner), rest) => 1 + Size(inner) + Size(rest)
  }

  lemma {:induction false} KeptIsNoLarger(fields: Fields)
    ensures Size(Kept(fields)) <= Size(fields)
  {
    match fields
    case Empty =>
    case Field(_, Text(_), rest) => KeptIsNoLarger(rest);
    case Field(_, Inner(inner), rest) => KeptIsNoLarger(inner); KeptIsNoLarger(rest);
  }

  lemma {:induction false} SolidHasEntries(fields: Fields)
    requires Solid(fields) && fields.Field?
    ensures Entries(fields) != []
  {
    if fields.value.Inner? { SolidHasEntries(fields.value.fields); }
  }

  lemma {:induction false} KeptWhole(fields: Fields)
    ensures Kept(fields) == fields <==> Solid(fields)
  {
    match fields
    case Empty =>
    case Field(_, Text(_), rest) =>
      KeptWhole(rest);
      KeptIsNoLarger(rest);
    case Field(_, Inner(inner), rest) =>
      KeptWhole(inner);
      KeptWhole(rest);
      KeptIsNoLarger(rest);
      if Solid(inner) && inner.Field? { SolidHasEntries(inner); }
  }

  // Entries of a dotless tree flatten to the joined keys of their paths.

  lemma {:induction false} EntriesAreDotFree(fields: Fields)
    requires Dotless(fields)
    ensures forall i | 0 <= i < |Entries(fields)| :: AllDotFree(Entries(fields)[i].0)
  {
    match fields
    case Empty =>
    case Field(_, Text(_), rest) => EntriesAreDotFree(rest);
    case Field(_, Inner(inner), rest) => EntriesAreDotFree(inner); EntriesAreDotFree(rest);
  }

  function PutAll(flat: Flat, path: seq<string>, entries: seq<Entry>): Flat
    requires Rooted(entries)
    decreases |entries|
  {
    if entries == [] then flat
    else PutAll(flat.Put(Join(path + entries[0].0), entries[0].1), path, entries[1..])
  }

  lemma {:induction false} PutAllParts(flat: Flat, path: seq<string>, a: seq<Entry>, b: seq<Entry>)
    requires Rooted(a) && Rooted(b)
    ensures PutAll(flat, path, a + b) == PutAll(PutAll(flat, path, a), path, b)
    decreases |a|
  {
    if a == [] {
      assert a + b == b;
    } else {
      assert (a + b)[0] == a[0] && (a + b)[1..] == a[1..] + b;
      PutAllParts(flat.Put(Join(path + a[0].0), a[0].1), path, a[1..], b);
    }
  }

  lemma {:induction false} PutAllUnder(flat: Flat, path: seq<string>, name: string, entries: seq<Entry>)
    requires Rooted(entries)
    ensures PutAll(flat, path, Under(name, entries)) == PutAll(flat, path + [name], entries)
    decreases |entries|
  {
    if entries != [] {
      assert path + ([name] + entries[0].0) == path + [name] + entries[0].0;
      assert Under(name, entries)[1..] == Under(name, entries[1..]);
      PutAllUnder(flat.Put(Join(path + [name] + entries[0].0), entries[0].1), path, name, entries[1..]);
    }
  }

  lemma {:induction false} FlattenIsPutAll(fields: Fields, path: seq<string>, flat: Flat)
    requires path == [] ==> NamedTop(fields)
    requires path != [] ==> Join(path) != ""
    ensures FlattenInto(fields, if path == [] then "" else Join(path), flat) == PutAll(flat, path, Entries(fields))
    decreases fields
  {
    var prefix := if path == [] then "" else Join(path);
    match fields
    case Empty =>
    case Field(name, value, rest) =>
      assert (path + [name])[..|path|] == path;
      assert FullKey(prefix, name) == Join(path + [name]);
      match value {
        case Text(text) =>
          assert Entries(fields)[0] == ([name], text) && Entries(fields)[1..] == Entries(rest);
          FlattenIsPutAll(rest, path, flat.Put(Join(path + [name]), text));
        case Inner(inner) =>
          FlattenIsPutAll(inner, path + [name], flat);
          PutAllUnder(flat, path, name, Entries(inner));
          PutAllParts(flat, path, Under(name, Entries(inner)), Entries(rest));
          FlattenIsPutAll(rest, path, PutAll(flat, path + [name], Entries(inner)));
      }
  }

  lemma {:induction false} EntryHeads(fields: Fields)
    ensures forall i | 0 <= i < |Entries(fields)| :: HasField(fields, Entries(fields)[i].0[0])
  {
    if fields.Field? { EntryHeads(fields.rest); }
  }

  ghost predicate DistinctPaths(entries: seq<Entry>) {
    forall i, j | 0 <= i < j < |entries| :: entries[i].0 != entries[j].0
  }

  lemma {:induction false} DistinctUnder(name: string, entries: seq<Entry>)
    requires DistinctPaths(entries)
    ensures DistinctPaths(Under(name, entries))
  {
    var under := Under(name, entries);
    forall i, j | 0 <= i < j < |under| ensures under[i].0 != under[j].0 {
      assert under[i].0[1..] == entries[i].0 && under[j].0[1..] == entries[j].0;
    }
  }

  lemma {:induction false} DistinctTogether(a: seq<Entry>, b: seq<Entry>)
    requires DistinctPaths(a) && DistinctPaths(b)
    requires forall i, j | 0 <= i < |a| && 0 <= j < |b| :: a[i].0 != b[j].0
    ensures DistinctPaths(a + b)
  {
  }

  lemma {:induction false} EntriesAreDistinct(fields: Fields)
    requires WellFormed(fields)
    ensures DistinctPaths(Entries(fields))
  {
    match fields
    case Empty =>
    case Field(name, value, rest) =>
      var first := if value.Inner? then Under(name, Entries(value.fields)) else [([name], value.text)];
      EntriesAreDistinct(rest);
      EntryHeads(rest);
      if value.Inner? {
        EntriesAreDistinct(value.fields);
        DistinctUnder(name, Entries(value.fields));
      }
      forall i, j | 0 <= i < |first| && 0 <= j < |Entries(rest)| ensures first[i].0 != Entries(rest)[j].0 {
        assert first[i].0[0] == name;
      }
      DistinctTogether(first, Entries(rest));
  }

  function JoinedKeys(entries: seq<Entry>): (keys: seq<string>)
    requires Rooted(entries)
    ensures |keys| == |entries|
    ensures forall i | 0 <= i < |keys| :: keys[i] == Join(entries[i].0)
  {
    seq(|entries|, i requires 0 <= i < |entries| => Join(entries[i].0))
  }

  ghost predicate DotFreePaths(entries: seq<Entry>) {
    Rooted(entries) && (forall i | 0 <= i < |entries| :: AllDotFree(entries[i].0))
  }

  lemma {:induction false} JoinedKeysAreDistinct(entries: seq<Entry>)
    requires DotFreePaths(entries) && DistinctPaths(entries)
    ensures forall i, j | 0 <= i < j < |entries| :: JoinedKeys(entries)[i] != JoinedKeys(entries)[j]
  {
    forall i, j | 0 <= i < j < |entries| ensures JoinedKeys(entries)[i] != JoinedKeys(entries)[j] {
      SplitJoin(entries[i].0);
      SplitJoin(entries[j].0);
    }
  }

  /** The flat map that lists the entries under their joined keys. */
  ghost predicate Lists(flat: Flat, entries: seq<Entry>)
    requires Rooted(entries)
  {
    && flat.order == JoinedKeys(entries)
    && (forall key :: key in flat.texts <==> key in flat.order)
    && (forall i | 0 <= i < |entries| :: flat.order[i] in flat.texts && flat.texts[flat.order[i]] == entries[i].1)
  }

  lemma {:induction false} PutAllLists(flat: Flat, before: seq<Entry>, entries: seq<Entry>)
    requires Rooted(before) && Rooted(entries)
    requires DotFreePaths(before + entries) && DistinctPaths(before + entries)
    requires Lists(flat, before)
    ensures Lists(PutAll(flat, [], entries), before + entries)
    decreases |entries|
  {
    if entries == [] {
      assert before + entries == before;
    } else {
      var all := before + entries;
      JoinedKeysAreDistinct(all);
      var key := Join(entries[0].0);
      assert all[|before|] == entries[0] && [] + entries[0].0 == entries[0].0;
      assert key !in flat.order by {
        forall i | 0 <= i < |before| ensures flat.order[i] != key {
          assert JoinedKeys(all)[i] == flat.order[i] && JoinedKeys(all)[|before|] == key;
        }
      }
      assert before + [entries[0]] + entries[1..] == all;
      assert JoinedKeys(before + [entries[0]]) == JoinedKeys(before) + [key];
      PutAllLists(flat.Put(key, entries[0].1), before + [entries[0]], entries[1..]);
    }
  }

  /** A well-formed tree without dots flattens to the joined paths of its texts. */
  lemma {:induction false} FlattenLists(fields: Fields)
    requires WellFormed(fields) && Dotless(fields) && NamedTop(fields)
    ensures Lists(FlattenInto(fields, "", NOTHING), Entries(fields))
  {
    EntriesAreDotFree(fields);
    EntriesAreDistinct(fields);
    FlattenIsPutAll(fields, [], NOTHING);
    assert [] + Entries(fields) == Entries(fields);
    PutAllLists(NOTHING, [], Entries(fields));
  }

  lemma {:induction false} RebuildIsBuild(fields: Fields, entries: seq<Entry>, texts: map<string, string>)
    requires DotFreePaths(entries)
    requires forall i | 0 <= i < |entries| :: JoinedKeys(entries)[i] in texts
              && texts[JoinedKeys(entries)[i]] == entries[i].1
    ensures Rebuild(fields, JoinedKeys(entries), texts) == Build(fields, entries)
    decreases |entries|
  {
    if entries != [] {
      SplitJoin(entries[0].0);
      assert JoinedKeys(entries)[0] == Join(entries[0].0);
      assert JoinedKeys(entries)[1..] == JoinedKeys(entries[1..]);
      RebuildIsBuild(SetPath(fields, entries[0].0, entries[0].1), entries[1..], texts);
    }
  }

  // Whatever is set, a rebuilt tree has no dotted name and no nameless inner map
  // at the top.

  lemma {:induction false} AssignKeepsDotless(fields: Fields, name: string, value: Node)
    requires Dotless(fields) && DotFree(name) && (value.Inner? ==> Dotless(value.fields))
    ensures Dotless(Assign(fields, name, value))
  {
    if fields.Field? { AssignKeepsDotless(fields.rest, name, value); }
  }

  lemma {:induction false} GetDotless(fields: Fields, name: string)
    requires Dotless(fields)
    ensures match Get(fields, name) case Some(Inner(inner)) => Dotless(inner) case _ => true
  {
    if fields.Field? { GetDotless(fields.rest, name); }
  }

  lemma {:induction false} SetPathKeepsDotless(fields: Fields, path: seq<string>, text: string)
    requires path != [] && AllDotFree(path) && Dotless(fields)
    ensures Dotless(SetPath(fields, path, text))
    decreases |path|
  {
    GetDotless(fields, path[0]);
    if |path| == 1 {
      AssignKeepsDotless(fields, path[0], Text(text));
    } else {
      var found := Get(fields, path[0]);
      var inner := if found.Some? && found.value.Inner? then found.value.fields else Empty;
      SetPathKeepsDotless(inner, path[1..], text);
      AssignKeepsDotless(fields, path[0], Inner(SetPath(inner, path[1..], text)));
    }
  }

  lemma {:induction false} RebuildIsDotless(fields: Fields, order: seq<string>, texts: map<string, string>)
    requires Dotless(fields) && forall i | 0 <= i < |order| :: order[i] in texts
    ensures Dotless(Rebuild(fields, order, texts))
    decreases |order|
  {
    if order != [] {
      SplitPiecesAreDotFree(order[0]);
      SetPathKeepsDotless(fields, Split(order[0]), texts[order[0]]);
      RebuildIsDotless(SetPath(fields, Split(order[0]), texts[order[0]]), order[1..], texts);
    }
  }

  predicate NoLeadingDot(key: string) {
    key != "" ==> key[0] != '.'
  }

  lemma {:induction false} SplitFirstPiece(key: string)
    requires NoLeadingDot(key) && |Split(key)| > 1
    ensures Split(key)[0] != ""
  {
    if |key| > 1 && |Split(key[..|key| - 1])| > 1 {
      SplitFirstPiece(key[..|key| - 1]);
    } else if |key| > 1 {
      SplitOnePiece(key[..|key| - 1]);
    }
  }

  lemma {:induction false} SplitOnePiece(key: string)
    requires |Split(key)| == 1
    ensures Split(key) == [key]
  {
    if key != "" {
      SplitOnePiece(key[..|key| - 1]);
      assert key == key[..|key| - 1] + [key[|key| - 1]];
    }
  }

  lemma {:induction false} AssignKeepsNamedTop(fields: Fields, name: string, value: Node)
    requires NamedTop(fields) && (value.Inner? ==> name != "")
    ensures NamedTop(Assign(fields, name, value))
  {
    if fields.Field? { AssignKeepsNamedTop(fields.rest, name, value); }
  }

  lemma {:induction false} RebuildNamesTop(fields: Fields, order: seq<string>, texts: map<string, string>)
    requires NamedTop(fields)
    requires forall i | 0 <= i < |order| :: order[i] in texts && NoLeadingDot(order[i])
    ensures NamedTop(Rebuild(fields, order, texts))
    decreases |order|
  {
    if order != [] {
      var path, text := Split(order[0]), texts[order[0]];
      if |path| > 1 { SplitFirstPiece(order[0]); }
      var found := Get(fields, path[0]);
      var inner := if found.Some? && found.value.Inner? then found.value.fields else Empty;
      AssignKeepsNamedTop(fields, path[0], if |path| == 1 then Text(text) else Inner(SetPath(inner, path[1..], text)));
      RebuildNamesTop(SetPath(fields, path, text), order[1..], texts);
    }
  }

  lemma {:induction false} FlattenHasNoLeadingDot(fields: Fields, prefix: string, flat: Flat)
    requires Dotless(fields) && NoLeadingDot(prefix)
    requires forall i | 0 <= i < |flat.order| :: NoLeadingDot(flat.order[i])
    ensures forall i | 0 <= i < |FlattenInto(fields, prefix, flat).order| ::
              NoLeadingDot(FlattenInto(fields, prefix, flat).order[i])
    decreases fields
  {
    match fields
    case Empty =>
    case Field(name, Text(text), rest) =>
      FlattenHasNoLeadingDot(rest, prefix, flat.Put(FullKey(prefix, name), text));
    case Field(name, Inner(inner), rest) =>
      FlattenHasNoLeadingDot(inner, FullKey(prefix, name), flat);
      FlattenHasNoLeadingDot(rest, prefix, FlattenInto(inner, FullKey(prefix, name), flat));
  }

  /** Rebuilding undoes flattening, fields in order, exactly for the trees whose
      names have no dot, whose inner maps are filled, named at the top level and not
      named like an inherited property, and whose texts are not called `__proto__`. */
  lemma {:induction false} RoundTripIffTidy(fields: Fields)
    requires WellFormed(fields)
    ensures RoundTrip(fields) == fields <==> Dotless(fields) && NamedTop(fields) && Solid(fields)
  {
    var flat := FlattenInto(fields, "", NOTHING);
    FlatIsKeyed(fields, "", NOTHING);
    if RoundTrip(fields) == fields {
      RebuildIsDotless(Empty, flat.order, flat.texts);
      FlattenHasNoLeadingDot(fields, "", NOTHING);
      RebuildNamesTop(Empty, flat.order, flat.texts);
    }
    if Dotless(fields) && NamedTop(fields) {
      RoundTripKeeps(fields);
      KeptWhole(fields);
    }
  }

  lemma {:induction false} RoundTripKeeps(fields: Fields)
    requires WellFormed(fields) && Dotless(fields) && NamedTop(fields)
    ensures RoundTrip(fields) == Kept(fields)
  {
    var flat := FlattenInto(fields, "", NOTHING);
    FlattenLists(fields);
    EntriesAreDotFree(fields);
    RebuildIsBuild(Empty, Entries(fields), flat.texts);
    BuildKeeps(Empty, fields);
  }

  // ---------------------------------------------- rebuilding with other texts

  /** The same tree with the texts found under its dotted keys. */
  function Relabel(fields: Fields, path: seq<string>, texts: map<string, string>): Fields {
    match fields
    case Empty => Empty
    case Field(name, Text(text), rest) =>
      var key := Join(path + [name]);
      Field(name, Text(if key in texts then texts[key] else text), Relabel(rest, path, texts))
    case Field(name, Inner(inner), rest) =>
      Field(name, Inner(Relabel(inner, path + [name], texts)), Relabel(rest, path, texts))
  }

  predicate SameShape(a: Fields, b: Fields) {
    match (a, b)
    case (Empty, Empty) => true
    case (Field(m, Text(_), r), Field(n, Text(_), t)) => m == n && SameShape(r, t)
    case (Field(m, Inner(f), r), Field(n, Inner(g), t)) => m == n && SameShape(f, g) && SameShape(r, t)
    case _ => false
  }

  lemma {:induction false} RelabelKeepsShape(fields: Fields, path: seq<string>, texts: map<string, string>)
    ensures SameShape(fields, Relabel(fields, path, texts))
  {
    match fields
    case Empty =>
    case Field(_, Text(_), rest) => RelabelKeepsShape(rest, path, texts);
    case Field(name, Inner(inner), rest) =>
      RelabelKeepsShape(inner, path + [name], texts);
      RelabelKeepsShape(rest, path, texts);
  }

  lemma {:induction false} ShapeDecidesTidiness(a: Fields, b: Fields)
    requires SameShape(a, b)
    ensures forall name :: HasField(a, name) <==> HasField(b, name)
    ensures WellFormed(a) <==> WellFormed(b)
    ensures Dotless(a) <==> Dotless(b)
    ensures NamedTop(a) <==> NamedTop(b)
    ensures Solid(a) <==> Solid(b)
  {
    if a.Field? {
      ShapeDecidesTidiness(a.rest, b.rest);
      if a.value.Inner? { ShapeDecidesTidiness(a.value.fields, b.value.fields); }
    }
  }

  lemma {:induction false} RelabelEntries(fields: Fields, path: seq<string>, texts: map<string, string>)
    requires forall i | 0 <= i < |Entries(fields)| :: Join(path + Entries(fields)[i].0) in texts
    ensures var entries, relabelled := Entries(fields), Entries(Relabel(fields, path, texts));
            && |relabelled| == |entries|
            && forall i | 0 <= i < |entries| :: relabelled[i] == (entries[i].0, texts[Join(path + entries[i].0)])
  {
    match fields
    case Empty =>
    case Field(name, value, rest) =>
      var entries, first := Entries(fields), |Entries(fields)| - |Entries(rest)|;
      forall i | 0 <= i < |Entries(rest)| ensures Join(path + Entries(rest)[i].0) in texts {
        assert entries[first + i] == Entries(rest)[i];
      }
      RelabelEntries(rest, path, texts);
      hide Join;
      if value.Inner? {
        var inner := Entries(value.fields);
        forall i | 0 <= i < |inner|
          ensures path + [name] + inner[i].0 == path + entries[i].0 && Join(path + [name] + inner[i].0) in texts
        {
          assert entries[i].0 == [name] + inner[i].0;
          assert path + [name] + inner[i].0 == path + ([name] + inner[i].0);
        }
        RelabelEntries(value.fields, path + [name], texts);
      } else {
        assert entries[0] == ([name], value.text);
      }
  }

  ghost predicate IsTidy(fields: Fields) {
    WellFormed(fields) && Dotless(fields) && NamedTop(fields) && Solid(fields)
  }

  /** A locale map built from the source's keys with other texts has the source's
      shape, and flattening it gives those texts back in the source's order. */
  lemma {:induction false} RebuiltLocaleReadsBack(fields: Fields, texts: map<string, string>)
    requires IsTidy(fields)
    requires texts.Keys == FlattenInto(fields, "", NOTHING).texts.Keys
    ensures var order := FlattenInto(fields, "", NOTHING).order;
            && (forall i | 0 <= i < |order| :: order[i] in texts)
            && SameShape(fields, Rebuild(Empty, order, texts))
            && FlattenInto(Rebuild(Empty, order, texts), "", NOTHING) == Flat(order, texts)
  {
    var flat := FlattenInto(fields, "", NOTHING);
    RelabelledLists(fields, texts);
    var relabelled := Relabel(fields, [], texts);
    FlattenLists(relabelled);
    ListsDetermines(FlattenInto(relabelled, "", NOTHING), Entries(relabelled), flat.order, texts);
    RoundTripKeeps(relabelled);
    KeptWhole(relabelled);
  }

  lemma {:induction false} RelabelledLists(fields: Fields, texts: map<string, string>)
    requires IsTidy(fields)
    requires texts.Keys == FlattenInto(fields, "", NOTHING).texts.Keys
    ensures var order, relabelled := FlattenInto(fields, "", NOTHING).order, Relabel(fields, [], texts);
            && SameShape(fields, relabelled) && IsTidy(relabelled)
            && JoinedKeys(Entries(relabelled)) == order
            && (forall key :: key in texts <==> key in order)
            && (forall i | 0 <= i < |order| :: Entries(relabelled)[i].1 == texts[order[i]])
  {
    var flat, entries := FlattenInto(fields, "", NOTHING), Entries(fields);
    FlattenLists(fields);
    forall i | 0 <= i < |entries| ensures [] + entries[i].0 == entries[i].0 && Join(entries[i].0) in texts {
      assert flat.order[i] in flat.texts;
    }
    RelabelKeepsShape(fields, [], texts);
    ShapeDecidesTidiness(fields, Relabel(fields, [], texts));
    RelabelEntries(fields, [], texts);
  }

  lemma {:induction false} ListsDetermines(flat: Flat, entries: seq<Entry>, order: seq<string>,
        texts: map<string, string>)
    requires Rooted(entries) && Lists(flat, entries)
    requires JoinedKeys(entries) == order && (forall key :: key in texts <==> key in order)
    requires forall i | 0 <= i < |order| :: order[i] in texts && entries[i].1 == texts[order[i]]
    ensures flat == Flat(order, texts)
  {
    forall key | key in texts ensures key in flat.texts && flat.texts[key] == texts[key] {
      var i :| 0 <= i < |order| && order[i] == key;
    }
  }

  // ------------------------------------------------------ rebuilding in any order

  function TextAt(fields: Fields, path: seq<string>): Option<string>
    decreases |path|
  {
    if path == [] then None
    else
      match Get(fields, path[0])
      case None => None
      case Some(Text(text)) => if |path| == 1 then Some(text) else None
      case Some(Inner(inner)) => if |path| == 1 then None else TextAt(inner, path[1..])
  }

  lemma {:induction false} GetAssign(fields: Fields, name: string, value: Node, other: string)
    ensures Get(Assign(fields, name, value), other) == if other == name then Some(value) else Get(fields, other)
  {
    if fields.Field? { GetAssign(fields.rest, name, value, other); }
  }

  /** Part of a tree: every field of `part` is one of `whole`, of the same kind. */
  ghost predicate Within(part: Fields, whole: Fields) {
    part.Field? ==>
      && Within(part.rest, whole)
      && match (part.value, Get(whole, part.name))
         case (Text(_), Some(Text(_))) => true
         case (Inner(a), Some(Inner(b))) => Within(a, b)
         case _ => false
  }

  lemma {:induction false} GetWithin(part: Fields, whole: Fields, name: string)
    requires Within(part, whole)
    ensures match Get(part, name)
            case None => true
            case Some(Text(_)) => Get(whole, name).Some? && Get(whole, name).value.Text?
            case Some(Inner(a)) =>
              Get(whole, name).Some? && Get(whole, name).value.Inner? && Within(a, Get(whole, name).value.fields)
  {
    if part.Field? { GetWithin(part.rest, whole, name); }
  }

  lemma {:induction false} AssignWithin(part: Fields, whole: Fields, name: string, value: Node)
    requires Within(part, whole) && Get(whole, name).Some?
    requires match (value, Get(whole, name).value)
             case (Text(_), Text(_)) => true
             case (Inner(a), Inner(b)) => Within(a, b)
             case _ => false
    ensures Within(Assign(part, name, value), whole)
  {
    if part.Field? { AssignWithin(part.rest, whole, name, value); }
  }

  lemma {:induction false} SolidField(fields: Fields, name: string)
    requires Solid(fields)
    ensures match Get(fields, name)
            case None => true
            case Some(Text(_)) => name != "__proto__"
            case Some(Inner(inner)) => name !in INHERITED && Solid(inner)
  {
    if fields.Field? { SolidField(fields.rest, name); }
  }

  /** Setting one of the whole tree's texts in a part of it changes that text only. */
  lemma {:induction false} SetWithin(part: Fields, whole: Fields, path: seq<string>, text: string)
    requires Within(part, whole) && Solid(whole) && path != [] && TextAt(whole, path).Some?
    ensures Within(SetPath(part, path, text), whole)
    ensures forall other ::
              TextAt(SetPath(part, path, text), other) == if other == path then Some(text) else TextAt(part, other)
    decreases |path|
  {
    var name := path[0];
    GetWithin(part, whole, name);
    SolidField(whole, name);
    var found := Get(part, name);
    var inner := if found.Some? && found.value.Inner? then found.value.fields else Empty;
    var value := if |path| == 1 then Text(text) else Inner(SetPath(inner, path[1..], text));
    if |path| > 1 { SetWithin(inner, Get(whole, name).value.fields, path[1..], text); }
    AssignWithin(part, whole, name, value);
    assert SetPath(part, path, text) == Assign(part, name, value);
    hide Within, Solid, SetPath;
    forall other
      ensures TextAt(Assign(part, name, value), other) == if other == path then Some(text) else TextAt(part, other)
    {
      if other != [] {
        TextAtAssign(part, name, value, other);
        assert other == [other[0]] + other[1..] && path == [name] + path[1..];
      }
    }
  }

  lemma {:induction false} TextAtAssign(fields: Fields, name: string, value: Node, other: seq<string>)
    requires other != []
    ensures TextAt(Assign(fields, name, value), other)
         == if other[0] != name then TextAt(fields, other)
            else match value
                 case Text(text) => if |other| == 1 then Some(text) else None
                 case Inner(inner) => if |other| == 1 then None else TextAt(inner, other[1..])
  {
    GetAssign(fields, name, value, other[0]);
    hide Assign;
  }

  /** Setting along the path stays in the tree: no step below a missing field with an
      inherited name, and no text for `__proto__`. */
  predicate StaysInTree(fields: Fields, path: seq<string>)
    requires path != []
    decreases |path|
  {
    if |path| == 1 then path[0] != "__proto__"
    else
      match Get(fields, path[0])
      case Some(Inner(inner)) => StaysInTree(inner, path[1..])
      case Some(Text(_)) => StaysInTree(Empty, path[1..])
      case None => path[0] !in INHERITED && StaysInTree(Empty, path[1..])
  }

  /** In any tree: the text set at a path is found there, and no text below it, if setting
      stays in the tree; otherwise the path reads as before. Nowhere else but above the
      path does a text change. */
  lemma {:induction false} SetThenRead(fields: Fields, path: seq<string>, text: string, other: seq<string>)
    requires path != []
    ensures other == path ==>
              TextAt(SetPath(fields, path, text), other)
              == if StaysInTree(fields, path) then Some(text) else TextAt(fields, other)
    ensures StaysInTree(fields, path) && path < other ==> TextAt(SetPath(fields, path, text), other) == None
    ensures StaysInTree(fields, path) && other < path ==> TextAt(SetPath(fields, path, text), other) == None
    ensures !(path <= other) && !(other <= path) ==>
              TextAt(SetPath(fields, path, text), other) == TextAt(fields, other)
    decreases |path|
  {
    if other != [] {
      var name, found := path[0], Get(fields, path[0]);
      var inner := if found.Some? && found.value.Inner? then found.value.fields else Empty;
      if |path| == 1 {
        TextAtAssign(fields, name, Text(text), other);
        assert path == [name] && other == [other[0]] + other[1..];
      } else {
        TextAtAssign(fields, name, Inner(SetPath(inner, path[1..], text)), other);
        SetThenRead(inner, path[1..], text, other[1..]);
        SameFirst(path, other);
      }
    }
  }

  function Names(fields: Fields): seq<string> {
    if fields.Empty? then [] else [fields.name] + Names(fields.rest)
  }

  lemma {:induction false} AssignKeepsPlaces(fields: Fields, name: string, value: Node)
    ensures Names(Assign(fields, name, value))
         == if Get(fields, name).Some? then Names(fields) else Names(fields) + [name]
  {
    if fields.Field? { AssignKeepsPlaces(fields.rest, name, value); }
  }

  lemma {:induction false} ShapeIsReflexive(fields: Fields)
    ensures SameShape(fields, fields)
  {
    if fields.Field? {
      ShapeIsReflexive(fields.rest);
      if fields.value.Inner? { ShapeIsReflexive(fields.value.fields); }
    }
  }

  lemma {:induction false} AssignKeepsShape(fields: Fields, name: string, value: Node)
    requires match (Get(fields, name), value)
             case (Some(Text(_)), Text(_)) => true
             case (Some(Inner(a)), Inner(b)) => SameShape(a, b)
             case _ => false
    ensures SameShape(fields, Assign(fields, name, value))
  {
    if fields.Field? {
      if fields.name == name {
        ShapeIsReflexive(fields.rest);
      } else {
        AssignKeepsShape(fields.rest, name, value);
        if fields.value.Inner? { ShapeIsReflexive(fields.value.fields); }
      }
    }
  }

  /** In any tree: every field keeps its place, and at most one new field is added, last.
      If there is a text at the path, all fields at all levels keep their places. */
  lemma {:induction false} SetKeepsPlaces(fields: Fields, path: seq<string>, text: string)
    requires path != []
    ensures Names(SetPath(fields, path, text))
         == if Get(fields, path[0]).None? && path[0] !in (if |path| > 1 then INHERITED else {"__proto__"})
            then Names(fields) + [path[0]] else Names(fields)
    ensures TextAt(fields, path).Some? ==> SameShape(fields, SetPath(fields, path, text))
    decreases |path|
  {
    var name, found := path[0], Get(fields, path[0]);
    var inner := if found.Some? && found.value.Inner? then found.value.fields else Empty;
    if |path| == 1 {
      AssignKeepsPlaces(fields, name, Text(text));
      ShapeIsReflexive(fields);
      if found.Some? && found.value.Text? { AssignKeepsShape(fields, name, Text(text)); }
    } else {
      AssignKeepsPlaces(fields, name, Inner(SetPath(inner, path[1..], text)));
      SetKeepsPlaces(inner, path[1..], text);
      if TextAt(fields, path).Some? { AssignKeepsShape(fields, name, Inner(SetPath(inner, path[1..], text))); }
    }
  }

  lemma {:induction false} SameFirst(path: seq<string>, other: seq<string>)
    requires path != [] && other != []
    ensures other == path <==> other[0] == path[0] && other[1..] == path[1..]
    ensures path <= other <==> other[0] == path[0] && path[1..] <= other[1..]
    ensures other <= path <==> other[0] == path[0] && other[1..] <= path[1..]
  {
    assert path == [path[0]] + path[1..] && other == [other[0]] + other[1..];
    if other[0] == path[0] && path[1..] <= other[1..] {
      assert forall i | 1 <= i < |path| :: path[i] == path[1..][i - 1] == other[1..][i - 1];
    }
    if other[0] == path[0] && other[1..] <= path[1..] {
      assert forall i | 1 <= i < |other| :: other[i] == other[1..][i - 1] == path[1..][i - 1];
    }
  }

  lemma {:induction false} EntriesAreTexts(fields: Fields)
    requires WellFormed(fields)
    ensures forall i | 0 <= i < |Entries(fields)| :: TextAt(fields, Entries(fields)[i].0) == Some(Entries(fields)[i].1)
  {
    match fields
    case Empty =>
    case Field(name, value, rest) =>
      EntriesAreTexts(rest);
      EntryHeads(rest);
      if value.Inner? { EntriesAreTexts(value.fields); }
      var entries, first := Entries(fields), |Entries(fields)| - |Entries(rest)|;
      forall i | 0 <= i < |entries| ensures TextAt(fields, entries[i].0) == Some(entries[i].1) {
        if i >= first {
          assert entries[i] == Entries(rest)[i - first];
        } else if value.Inner? {
          var inner := Entries(value.fields)[i];
          assert entries[i].0 == [name] + inner.0 && entries[i].0[1..] == inner.0;
        }
      }
  }

  lemma {:induction false} TextsAreEntries(fields: Fields, path: seq<string>)
    requires WellFormed(fields) && TextAt(fields, path).Some?
    ensures exists i :: 0 <= i < |Entries(fields)| && Entries(fields)[i].0 == path
    decreases fields
  {
    var entries, first := Entries(fields), |Entries(fields)| - |Entries(fields.rest)|;
    if path[0] != fields.name {
      TextsAreEntries(fields.rest, path);
      var i :| 0 <= i < |Entries(fields.rest)| && Entries(fields.rest)[i].0 == path;
      assert entries[first + i].0 == path;
    } else if fields.value.Inner? {
      TextsAreEntries(fields.value.fields, path[1..]);
      var i :| 0 <= i < |Entries(fields.value.fields)| && Entries(fields.value.fields)[i].0 == path[1..];
      assert entries[i].0 == [path[0]] + path[1..] == path;
    } else {
      assert entries[0].0 == [path[0]] == path;
    }
  }

  lemma {:induction false} RebuildReads(part: Fields, whole: Fields, order: seq<string>, texts: map<string, string>,
        path: seq<string>)
    requires Within(part, whole) && Solid(whole)
    requires forall i | 0 <= i < |order| :: order[i] in texts && TextAt(whole, Split(order[i])) == Some(texts[order[i]])
    ensures TextAt(Rebuild(part, order, texts), path)
         == if exists i :: 0 <= i < |order| && Split(order[i]) == path then TextAt(whole, path) else TextAt(part, path)
    decreases |order|
  {
    if order != [] {
      SetWithin(part, whole, Split(order[0]), texts[order[0]]);
      RebuildReads(SetPath(part, Split(order[0]), texts[order[0]]), whole, order[1..], texts, path);
      if i :| 0 <= i < |order| && Split(order[i]) == path && i > 0 {
        assert order[1..][i - 1] == order[i];
      }
    }
  }

  // ------------------------------------------------ equal up to the order of fields

  /** Every field of `part` is one of `whole`, with the same texts. */
  ghost predicate Included(part: Fields, whole: Fields) {
    part.Field? ==>
      && Included(part.rest, whole)
      && match (part.value, Get(whole, part.name))
         case (Text(s), Some(Text(t))) => s == t
         case (Inner(a), Some(Inner(b))) => Included(a, b)
         case _ => false
  }

  ghost predicate EqualUpToOrder(a: Fields, b: Fields) {
    WellFormed(a) && WellFormed(b) && Included(a, b) && Included(b, a)
  }

  lemma {:induction false} AssignKeepsWellFormed(fields: Fields, name: string, value: Node)
    requires WellFormed(fields) && (value.Inner? ==> WellFormed(value.fields))
    ensures WellFormed(Assign(fields, name, value))
    ensures forall other :: HasField(Assign(fields, name, value), other) <==> other == name || HasField(fields, other)
  {
    if fields.Field? { AssignKeepsWellFormed(fields.rest, name, value); }
  }

  lemma {:induction false} GetIsWellFormed(fields: Fields, name: string)
    requires WellFormed(fields) && Get(fields, name).Some? && Get(fields, name).value.Inner?
    ensures WellFormed(Get(fields, name).value.fields)
  {
    if fields.name != name { GetIsWellFormed(fields.rest, name); }
  }

  lemma {:induction false} SetPathKeepsWellFormed(fields: Fields, path: seq<string>, text: string)
    requires WellFormed(fields) && path != []
    ensures WellFormed(SetPath(fields, path, text))
    decreases |path|
  {
    var name, found := path[0], Get(fields, path[0]);
    if |path| == 1 {
      AssignKeepsWellFormed(fields, name, Text(text));
    } else {
      var inner := if found.Some? && found.value.Inner? then found.value.fields else Empty;
      if found.Some? && found.value.Inner? { GetIsWellFormed(fields, name); }
      SetPathKeepsWellFormed(inner, path[1..], text);
      AssignKeepsWellFormed(fields, name, Inner(SetPath(inner, path[1..], text)));
    }
  }

  lemma {:induction false} RebuildIsWithin(part: Fields, whole: Fields, order: seq<string>, texts: map<string, string>)
    requires WellFormed(part) && Within(part, whole) && Solid(whole)
    requires forall i | 0 <= i < |order| :: order[i] in texts && TextAt(whole, Split(order[i])).Some?
    ensures WellFormed(Rebuild(part, order, texts)) && Within(Rebuild(part, order, texts), whole)
    decreases |order|
  {
    if order != [] {
      SetWithin(part, whole, Split(order[0]), texts[order[0]]);
      SetPathKeepsWellFormed(part, Split(order[0]), texts[order[0]]);
      RebuildIsWithin(SetPath(part, Split(order[0]), texts[order[0]]), whole, order[1..], texts);
    }
  }

  ghost predicate SharesTexts(a: Fields, b: Fields) {
    forall path | TextAt(a, path).Some? :: TextAt(b, path) == TextAt(a, path)
  }

  lemma {:induction false} TextBelow(fields: Fields, name: string, path: seq<string>)
    requires path != []
    ensures TextAt(fields, [name] + path)
         == match Get(fields, name) case Some(Inner(inner)) => TextAt(inner, path) case _ => None
  {
    assert ([name] + path)[1..] == path;
  }

  lemma {:induction false} RestSharesTexts(a: Fields, b: Fields)
    requires a.Field? && WellFormed(a) && SharesTexts(a, b)
    ensures SharesTexts(a.rest, b)
  {
    forall path | TextAt(a.rest, path).Some? ensures TextAt(b, path) == TextAt(a.rest, path) {
      NoFieldNoGet(a.rest, a.name);
      assert path[0] != a.name;
      assert TextAt(a, path) == TextAt(a.rest, path);
    }
  }

  lemma {:induction false} NoFieldNoGet(fields: Fields, name: string)
    ensures Get(fields, name).Some? <==> HasField(fields, name)
  {
    if fields.Field? { NoFieldNoGet(fields.rest, name); }
  }

  lemma {:induction false} InnerSharesTexts(a: Fields, b: Fields, name: string)
    requires SharesTexts(a, b) && Get(a, name).Some? && Get(a, name).value.Inner?
    requires Get(b, name).Some? && Get(b, name).value.Inner?
    ensures SharesTexts(Get(a, name).value.fields, Get(b, name).value.fields)
  {
    var inner, other := Get(a, name).value.fields, Get(b, name).value.fields;
    forall path | TextAt(inner, path).Some? ensures TextAt(other, path) == TextAt(inner, path) {
      TextBelow(a, name, path);
      TextBelow(b, name, path);
      assert TextAt(a, [name] + path).Some?;
    }
  }

  /** A part that shares its texts with the whole is included in it. */
  lemma {:induction false} WithinIsIncluded(part: Fields, whole: Fields)
    requires WellFormed(part) && Within(part, whole) && SharesTexts(part, whole)
    ensures Included(part, whole)
  {
    if part.Field? {
      RestSharesTexts(part, whole);
      WithinIsIncluded(part.rest, whole);
      if part.value.Inner? {
        InnerSharesTexts(part, whole, part.name);
        WithinIsIncluded(part.value.fields, Get(whole, part.name).value.fields);
      } else {
        assert TextAt(part, [part.name]) == Some(part.value.text);
      }
    }
  }

  lemma {:induction false} SolidHasText(fields: Fields) returns (path: seq<string>)
    requires fields.Field? && Solid(fields)
    ensures TextAt(fields, path).Some?
  {
    if fields.value.Inner? {
      var inner := SolidHasText(fields.value.fields);
      TextBelow(fields, fields.name, inner);
      path := [fields.name] + inner;
    } else {
      path := [fields.name];
    }
  }

  /** A tree without empty inner maps is included in any tree that shares its texts. */
  lemma {:induction false} SolidIsIncluded(a: Fields, b: Fields)
    requires WellFormed(a) && Solid(a) && SharesTexts(a, b)
    ensures Included(a, b)
  {
    if a.Field? {
      RestSharesTexts(a, b);
      SolidIsIncluded(a.rest, b);
      if a.value.Inner? {
        var path := SolidHasText(a.value.fields);
        TextBelow(a, a.name, path);
        TextBelow(b, a.name, path);
        InnerSharesTexts(a, b, a.name);
        SolidIsIncluded(a.value.fields, Get(b, a.name).value.fields);
      } else {
        assert TextAt(a, [a.name]) == Some(a.value.text);
        assert TextAt(b, [a.name]) == TextAt(a, [a.name]);
      }
    }
  }

  /** Setting a tidy tree's flattened keys in another order, or some of them twice, gives
      the same tree but for the order of fields. */
  lemma {:induction false} RebuildInAnyOrder(fields: Fields, order: seq<string>)
    requires IsTidy(fields)
    requires forall key :: key in order <==> key in FlattenInto(fields, "", NOTHING).order
    ensures var flat := FlattenInto(fields, "", NOTHING);
            && (forall i | 0 <= i < |order| :: order[i] in flat.texts)
            && EqualUpToOrder(Rebuild(Empty, order, flat.texts), fields)
  {
    var flat := FlattenInto(fields, "", NOTHING);
    OrderedTexts(fields, order);
    var rebuilt := Rebuild(Empty, order, flat.texts);
    RebuildIsWithin(Empty, fields, order, flat.texts);
    forall path ensures TextAt(rebuilt, path) == TextAt(fields, path) {
      RebuildHasTexts(fields, order, path);
    }
    WithinIsIncluded(rebuilt, fields);
    SolidIsIncluded(fields, rebuilt);
  }

  lemma {:induction false} OrderedTexts(fields: Fields, order: seq<string>)
    requires IsTidy(fields)
    requires forall key :: key in order <==> key in FlattenInto(fields, "", NOTHING).order
    ensures var flat := FlattenInto(fields, "", NOTHING);
            forall i | 0 <= i < |order| ::
              order[i] in flat.texts && TextAt(fields, Split(order[i])) == Some(flat.texts[order[i]])
  {
    var flat, entries := FlattenInto(fields, "", NOTHING), Entries(fields);
    FlattenLists(fields);
    EntriesAreDotFree(fields);
    EntriesAreTexts(fields);
    forall i | 0 <= i < |order|
      ensures order[i] in flat.texts && TextAt(fields, Split(order[i])) == Some(flat.texts[order[i]])
    {
      assert order[i] in flat.order;
      var k :| 0 <= k < |entries| && flat.order[k] == order[i];
      SplitJoin(entries[k].0);
    }
  }

  lemma {:induction false} RebuildHasTexts(fields: Fields, order: seq<string>, path: seq<string>)
    requires IsTidy(fields)
    requires forall key :: key in order <==> key in FlattenInto(fields, "", NOTHING).order
    requires forall i | 0 <= i < |order| :: order[i] in FlattenInto(fields, "", NOTHING).texts
    ensures TextAt(Rebuild(Empty, order, FlattenInto(fields, "", NOTHING).texts), path) == TextAt(fields, path)
  {
    var flat, entries := FlattenInto(fields, "", NOTHING), Entries(fields);
    OrderedTexts(fields, order);
    FlattenLists(fields);
    EntriesAreDotFree(fields);
    RebuildReads(Empty, fields, order, flat.texts, path);
    if TextAt(fields, path).Some? {
      TextsAreEntries(fields, path);
      var k :| 0 <= k < |entries| && entries[k].0 == path;
      SplitJoin(path);
      assert flat.order[k] in order;
      var i :| 0 <= i < |order| && order[i] == flat.order[k];
      assert Split(order[i]) == path;
    }
  }
}
