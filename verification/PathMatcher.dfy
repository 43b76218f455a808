/** Config path patterns and the coverage report built on them
    (scripts/check-policy-config-coverage.ts). `*` stands for one segment of a dotted
    path and `**` for any number of them. */
module PathMatcher {
  import opened Basics
  import opened LocaleTree

  const STAR := "*"
  const GLOBSTAR := "**"

  /** `matchesParts`, by cases on the first segment of the pattern. */
  predicate Matches(pattern: seq<string>, value: seq<string>) {
    if pattern == [] then value == []
    else if pattern[0] == GLOBSTAR then
      |pattern| == 1 || exists i | 0 <= i <= |value| :: Matches(pattern[1..], value[i..])
    else value != [] && (pattern[0] == STAR || pattern[0] == value[0]) && Matches(pattern[1..], value[1..])
  }

  method MatchesParts(pattern: seq<string>, value: seq<string>) returns (matches: bool)
    ensures matches == Matches(pattern, value)
    decreases |pattern|
  {
    if |pattern| == 0 {
      return |value| == 0;
    }
    var head, tail := pattern[0], pattern[1..];
    if head == GLOBSTAR {
      if |tail| == 0 {
        return true;
      }
      for index := 0 to |value| + 1
        invariant forall i | 0 <= i < index :: !Matches(tail, value[i..])
      {
        var found := MatchesParts(tail, value[index..]);
        if found {
          return true;
        }
      }
      return false;
    }
    if |value| == 0 {
      return false;
    }
    if head != STAR && head != value[0] {
      return false;
    }
    matches := MatchesParts(tail, value[1..]);
  }

  method PathMatchesPattern(pattern: string, value: string) returns (matches: bool)
    ensures matches == PathMatches(pattern, value)
  {
    matches := MatchesParts(Split(pattern), Split(value));
  }

  predicate PathMatches(pattern: string, value: string) {
    Matches(Split(pattern), Split(value))
  }

  method MatchesAny(patterns: seq<string>, value: string) returns (matches: bool)
    ensures matches <==> exists pattern | pattern in patterns :: PathMatches(pattern, value)
  {
    hide PathMatches;
    for i := 0 to |patterns|
      invariant forall j | 0 <= j < i :: !PathMatches(patterns[j], value)
    {
      var found := PathMatchesPattern(patterns[i], value);
      if found {
        return true;
      }
    }
    return false;
  }

  // ----------------------------------------------------------- what a match means

  /** The segments a part of the pattern may stand for. */
  predicate Fits(part: string, segments: seq<string>) {
    if part == GLOBSTAR then true
    else if part == STAR then |segments| == 1
    else segments == [part]
  }

  /** An assignment of segments to each part of the pattern that spells the value. */
  predicate Spells(pattern: seq<string>, value: seq<string>, assignment: seq<seq<string>>) {
    && |assignment| == |pattern|
    && (forall i | 0 <= i < |pattern| :: Fits(pattern[i], assignment[i]))
    && Concat(assignment) == value
  }

  lemma {:induction false} MatchAssigns(pattern: seq<string>, value: seq<string>) returns (assignment: seq<seq<string>>)
    requires Matches(pattern, value)
    ensures Spells(pattern, value, assignment)
    decreases |pattern|
  {
    if pattern == [] {
      assignment := [];
    } else if pattern == [GLOBSTAR] {
      assignment := [value];
      assert assignment[1..] == [] && value + [] == value;
    } else {
      var n := 1;
      if pattern[0] == GLOBSTAR {
        n :| 0 <= n <= |value| && Matches(pattern[1..], value[n..]);
      }
      var rest := MatchAssigns(pattern[1..], value[n..]);
      assignment := [value[..n]] + rest;
      assert assignment[1..] == rest && value == value[..n] + value[n..];
    }
  }

  lemma {:induction false} AssignmentMatches(pattern: seq<string>, value: seq<string>, assignment: seq<seq<string>>)
    requires Spells(pattern, value, assignment)
    ensures Matches(pattern, value)
    decreases |pattern|
  {
    if pattern != [] {
      var n := |assignment[0]|;
      assert Fits(pattern[0], assignment[0]);
      assert value == assignment[0] + Concat(assignment[1..]) && value[..n] == assignment[0]
          && value[n..] == Concat(assignment[1..]);
      AssignmentMatches(pattern[1..], value[n..], assignment[1..]);
    }
  }

  /** A pattern matches exactly if some assignment spells the value. */
  lemma {:induction false} MatchesIffSpells(pattern: seq<string>, value: seq<string>)
    ensures Matches(pattern, value) <==> exists assignment :: Spells(pattern, value, assignment)
  {
    if Matches(pattern, value) {
      var assignment := MatchAssigns(pattern, value);
    }
    forall assignment | Spells(pattern, value, assignment) ensures Matches(pattern, value) {
      AssignmentMatches(pattern, value, assignment);
    }
  }

  lemma {:induction false} ConcatSplits(a: seq<seq<string>>, b: seq<seq<string>>)
    ensures Concat(a + b) == Concat(a) + Concat(b)
  {
    if a == [] {
      assert a + b == b;
    } else {
      assert (a + b)[1..] == a[1..] + b;
      ConcatSplits(a[1..], b);
    }
  }

  lemma {:induction false} CutAssignment(a: seq<string>, b: seq<string>, value: seq<string>) returns (n: nat)
    requires Matches(a + b, value)
    ensures n <= |value| && Matches(a, value[..n]) && Matches(b, value[n..])
  {
    var assignment := MatchAssigns(a + b, value);
    hide Matches, Fits, Concat;
    var first, second := assignment[..|a|], assignment[|a|..];
    assert assignment == first + second;
    ConcatSplits(first, second);
    n := |Concat(first)|;
    assert value[..n] == Concat(first) && value[n..] == Concat(second);
    forall i | 0 <= i < |a| ensures Fits(a[i], first[i]) {
      assert Fits((a + b)[i], assignment[i]);
    }
    forall i | 0 <= i < |b| ensures Fits(b[i], second[i]) {
      assert Fits((a + b)[|a| + i], assignment[|a| + i]);
    }
    AssignmentMatches(a, value[..n], first);
    AssignmentMatches(b, value[n..], second);
  }

  lemma {:induction false} JoinAssignments(a: seq<string>, b: seq<string>, value: seq<string>, n: nat)
    requires n <= |value| && Matches(a, value[..n]) && Matches(b, value[n..])
    ensures Matches(a + b, value)
  {
    var first := MatchAssigns(a, value[..n]);
    var second := MatchAssigns(b, value[n..]);
    hide Matches, Fits, Concat;
    ConcatSplits(first, second);
    assert value == value[..n] + value[n..];
    AssignmentMatches(a + b, value, first + second);
  }

  /** A concatenation of patterns matches exactly the concatenations of matches. */
  lemma {:induction false} ConcatMatches(a: seq<string>, b: seq<string>, value: seq<string>)
    ensures Matches(a + b, value) <==> exists n | 0 <= n <= |value| :: Matches(a, value[..n]) && Matches(b, value[n..])
  {
    hide *;
    if Matches(a + b, value) {
      var n := CutAssignment(a, b, value);
    }
    forall n | 0 <= n <= |value| && Matches(a, value[..n]) && Matches(b, value[n..]) ensures Matches(a + b, value) {
      JoinAssignments(a, b, value, n);
    }
  }

  /** Repeated `**` collapses to one, wherever it stands. */
  lemma {:induction false} GlobstarCollapses(before: seq<string>, after: seq<string>, value: seq<string>)
    ensures Matches(before + [GLOBSTAR, GLOBSTAR] + after, value) == Matches(before + [GLOBSTAR] + after, value)
  {
    forall n | 0 <= n <= |value|
      ensures Matches([GLOBSTAR, GLOBSTAR] + after, value[n..]) == Matches([GLOBSTAR] + after, value[n..])
    {
      CollapsesInFront(after, value[n..]);
    }
    ConcatMatches(before, [GLOBSTAR, GLOBSTAR] + after, value);
    ConcatMatches(before, [GLOBSTAR] + after, value);
    assert before + [GLOBSTAR, GLOBSTAR] + after == before + ([GLOBSTAR, GLOBSTAR] + after);
    assert before + [GLOBSTAR] + after == before + ([GLOBSTAR] + after);
  }

  lemma {:induction false} CollapsesInFront(after: seq<string>, value: seq<string>)
    ensures Matches([GLOBSTAR, GLOBSTAR] + after, value) == Matches([GLOBSTAR] + after, value)
  {
    var one := [GLOBSTAR] + after;
    var two := [GLOBSTAR, GLOBSTAR] + after;
    assert two[1..] == one && one[1..] == after;
    if Matches(one, value) {
      assert value[0..] == value;
    }
    if Matches(two, value) && after != [] {
      var i :| 0 <= i <= |value| && Matches(one, value[i..]);
      var j :| 0 <= j <= |value[i..]| && Matches(after, value[i..][j..]);
      assert value[i..][j..] == value[i + j..];
    }
  }

  /** Without wildcards a pattern matches only itself. */
  lemma {:induction false} PlainPatternMatchesItself(pattern: string, value: string)
    requires STAR !in Split(pattern) && GLOBSTAR !in Split(pattern)
    ensures PathMatches(pattern, value) <==> pattern == value
  {
    PlainPartsMatchThemselves(Split(pattern), Split(value));
    JoinSplit(pattern);
    JoinSplit(value);
  }

  lemma {:induction false} PlainPartsMatchThemselves(pattern: seq<string>, value: seq<string>)
    requires STAR !in pattern && GLOBSTAR !in pattern
    ensures Matches(pattern, value) <==> pattern == value
    decreases |pattern|
  {
    if pattern != [] && value != [] {
      PlainPartsMatchThemselves(pattern[1..], value[1..]);
      assert pattern == [pattern[0]] + pattern[1..] && value == [value[0]] + value[1..];
    }
  }

  // -------------------------------------------------------------------- the report

  datatype Classification = Classification(pattern: string, status: string, area: string, allowNoSchemaPath: bool)

  datatype ConfigEntry = ConfigEntry(path: string, hasChildren: bool)

  datatype Classified = Classified(path: string, classification: Option<Classification>)

  datatype Report = Report(classified: seq<Classified>, unclassified: seq<Classified>,
                           unmatchedMonitored: seq<string>, stale: seq<Classification>)

  function Filter<T>(keep: T -> bool, items: seq<T>): (kept: seq<T>)
    ensures forall x | x in kept :: x in items && keep(x)
    ensures forall x | x in items && keep(x) :: x in kept
  {
    if items == [] then []
    else
      assert items == [items[0]] + items[1..];
      (if keep(items[0]) then [items[0]] else []) + Filter(keep, items[1..])
  }

  /** The first classification whose pattern matches the path. */
  function FindClassification(classifications: seq<Classification>, path: string): (found: Option<Classification>)
    ensures found.None? <==> forall c | c in classifications :: !PathMatches(c.pattern, path)
    ensures found.Some? ==>
              exists i | 0 <= i < |classifications| ::
                && classifications[i] == found.value && PathMatches(found.value.pattern, path)
                && forall j | 0 <= j < i :: !PathMatches(classifications[j].pattern, path)
  {
    if classifications == [] then None
    else
      assert classifications == [classifications[0]] + classifications[1..];
      if PathMatches(classifications[0].pattern, path) then Some(classifications[0])
      else FindClassification(classifications[1..], path)
  }

  predicate IsMonitored(monitored: seq<string>, entry: ConfigEntry) {
    !entry.hasChildren && exists pattern | pattern in monitored :: PathMatches(pattern, entry.path)
  }

  predicate HasLeaf(pattern: string, entries: seq<ConfigEntry>) {
    exists entry | entry in entries :: !entry.hasChildren && PathMatches(pattern, entry.path)
  }

  /** A monitored pattern may match no path if an exempt classification covers it. */
  predicate IsExempt(pattern: string, classifications: seq<Classification>) {
    exists c | c in classifications :: c.allowNoSchemaPath && PathMatches(c.pattern, pattern)
  }

  predicate IsUsed(c: Classification, monitoredEntries: seq<ConfigEntry>) {
    exists entry | entry in monitoredEntries :: PathMatches(c.pattern, entry.path)
  }

  function Classify(classifications: seq<Classification>, entries: seq<ConfigEntry>): (classified: seq<Classified>)
    ensures |classified| == |entries|
    ensures forall i | 0 <= i < |entries| ::
              classified[i] == Classified(entries[i].path, FindClassification(classifications, entries[i].path))
  {
    seq(|entries|, i requires 0 <= i < |entries| =>
      Classified(entries[i].path, FindClassification(classifications, entries[i].path)))
  }

  function Coverage(monitored: seq<string>, classifications: seq<Classification>, entries: seq<ConfigEntry>): Report {
    var monitoredEntries := Filter((entry: ConfigEntry) => IsMonitored(monitored, entry), entries);
    var classified := Classify(classifications, monitoredEntries);
    Report(classified,
           Filter((c: Classified) => c.classification.None?, classified),
           Filter((pattern: string) => !HasLeaf(pattern, entries) && !IsExempt(pattern, classifications), monitored),
           Filter((c: Classification) => !c.allowNoSchemaPath && !IsUsed(c, monitoredEntries), classifications))
  }

  predicate IsOk(report: Report) {
    report.unclassified == [] && report.stale == [] && report.unmatchedMonitored == []
  }

  lemma {:induction false} EmptyFilter<T>(keep: T -> bool, items: seq<T>)
    ensures Filter(keep, items) == [] <==> forall x | x in items :: !keep(x)
  {
    if Filter(keep, items) != [] {
      assert Filter(keep, items)[0] in Filter(keep, items);
    }
  }

  /** A leaf below some monitored pattern. */
  ghost predicate IsMonitoredLeaf(monitored: seq<string>, entry: ConfigEntry) {
    !entry.hasChildren && exists pattern | pattern in monitored :: PathMatches(pattern, entry.path)
  }

  /** What the lists of a report hold: every monitored leaf with the first classification
      that matches it; the leaves without one; the classifications that are not exempt and
      match no monitored leaf; the monitored patterns that match no leaf and that no
      exempt classification covers. */
  lemma {:induction false} ReportTells(monitored: seq<string>, classifications: seq<Classification>,
        entries: seq<ConfigEntry>)
    ensures var report := Coverage(monitored, classifications, entries);
            && (forall c | c in report.classified ::
                  && (exists entry | entry in entries :: IsMonitoredLeaf(monitored, entry) && c.path == entry.path)
                  && IsFirstMatch(classifications, c.path, c.classification))
            && (forall entry | entry in entries && IsMonitoredLeaf(monitored, entry) ::
                  exists c | c in report.classified :: c.path == entry.path)
            && (forall c :: c in report.unclassified <==> c in report.classified && c.classification.None?)
            && (forall c :: c in report.stale <==>
                  && c in classifications && !c.allowNoSchemaPath
                  && forall entry | entry in entries && IsMonitoredLeaf(monitored, entry) ::
                       !PathMatches(c.pattern, entry.path))
            && (forall pattern :: pattern in report.unmatchedMonitored <==>
                  && pattern in monitored
                  && (forall entry | entry in entries && !entry.hasChildren :: !PathMatches(pattern, entry.path))
                  && (forall c | c in classifications && c.allowNoSchemaPath :: !PathMatches(c.pattern, pattern)))
  {
    var monitoredEntries := Filter((entry: ConfigEntry) => IsMonitored(monitored, entry), entries);
    assert forall entry :: IsMonitored(monitored, entry) <==> IsMonitoredLeaf(monitored, entry);
    ClassifyTells(classifications, monitoredEntries);
    hide PathMatches, IsMonitored, IsMonitoredLeaf, FindClassification, Classify, IsFirstMatch;
  }

  /** The first classification whose pattern matches the path, if any does. */
  ghost predicate IsFirstMatch(classifications: seq<Classification>, path: string, found: Option<Classification>) {
    match found
    case None => forall c | c in classifications :: !PathMatches(c.pattern, path)
    case Some(c) =>
      exists i | 0 <= i < |classifications| ::
        && classifications[i] == c && PathMatches(c.pattern, path)
        && forall j | 0 <= j < i :: !PathMatches(classifications[j].pattern, path)
  }

  lemma {:induction false} ClassifyTells(classifications: seq<Classification>, entries: seq<ConfigEntry>)
    ensures var classified := Classify(classifications, entries);
            && (forall c | c in classified ::
                  && (exists entry | entry in entries :: c.path == entry.path)
                  && IsFirstMatch(classifications, c.path, c.classification))
            && (forall entry | entry in entries :: exists c | c in classified :: c.path == entry.path)
  {
    var classified := Classify(classifications, entries);
    hide PathMatches;
    forall c | c in classified
      ensures exists entry | entry in entries :: c.path == entry.path
      ensures IsFirstMatch(classifications, c.path, c.classification)
    {
      var i :| 0 <= i < |classified| && classified[i] == c;
      assert entries[i] in entries;
    }
    forall entry | entry in entries ensures exists c | c in classified :: c.path == entry.path {
      var i :| 0 <= i < |entries| && entries[i] == entry;
      assert classified[i] in classified;
    }
  }

  /** A report is ok exactly if every monitored leaf is matched by a classification, every
      classification that is not exempt matches a monitored leaf, and every monitored
      pattern matches a leaf or is covered by an exempt classification. */
  lemma {:induction false} OkMeansCovered(monitored: seq<string>, classifications: seq<Classification>,
        entries: seq<ConfigEntry>)
    ensures IsOk(Coverage(monitored, classifications, entries)) <==>
              && (forall entry | entry in entries && IsMonitoredLeaf(monitored, entry) ::
                    exists c | c in classifications :: PathMatches(c.pattern, entry.path))
              && (forall c | c in classifications && !c.allowNoSchemaPath ::
                    exists entry | entry in entries ::
                      IsMonitoredLeaf(monitored, entry) && PathMatches(c.pattern, entry.path))
              && (forall pattern | pattern in monitored ::
                    || (exists entry | entry in entries :: !entry.hasChildren && PathMatches(pattern, entry.path))
                    || (exists c | c in classifications :: c.allowNoSchemaPath && PathMatches(c.pattern, pattern)))
  {
    var monitoredEntries := Filter((entry: ConfigEntry) => IsMonitored(monitored, entry), entries);
    assert forall entry :: IsMonitored(monitored, entry) <==> IsMonitoredLeaf(monitored, entry);
    var classified := Classify(classifications, monitoredEntries);
    EmptyFilter((c: Classified) => c.classification.None?, classified);
    EmptyFilter((pattern: string) => !HasLeaf(pattern, entries) && !IsExempt(pattern, classifications), monitored);
    EmptyFilter((c: Classification) => !c.allowNoSchemaPath && !IsUsed(c, monitoredEntries), classifications);
    AllClassified(classifications, monitoredEntries);
    hide PathMatches, IsMonitored, IsMonitoredLeaf, FindClassification, Classify;
  }

  lemma {:induction false} AllClassified(classifications: seq<Classification>, entries: seq<ConfigEntry>)
    ensures (forall c | c in Classify(classifications, entries) :: c.classification.Some?) <==>
            forall entry | entry in entries :: FindClassification(classifications, entry.path).Some?
  {
    var classified := Classify(classifications, entries);
    hide FindClassification, Classify;
    forall entry | entry in entries
      ensures Classified(entry.path, FindClassification(classifications, entry.path)) in classified
    {
      var i :| 0 <= i < |entries| && entries[i] == entry;
      assert classified[i] in classified;
    }
  }

  // ------------------------------------------------------------------ the summary

  function SummaryKey(entry: Classified): string {
    if entry.classification.None? then "unclassified"
    else entry.classification.value.area + "." + entry.classification.value.status
  }

  predicate CountsUnder(key: string, entry: Classified) {
    match entry.classification
    case None => key == "unclassified"
    case Some(c) => key == c.area + "." + c.status
  }

  function CountOf(key: string, entries: seq<Classified>): nat {
    if entries == [] then 0
    else CountOf(key, entries[..|entries| - 1]) + if CountsUnder(key, entries[|entries| - 1]) then 1 else 0
  }

  /** Every entry is counted once, under its own key. */
  method Summarize(entries: seq<Classified>) returns (counts: map<string, nat>)
    ensures forall key :: (if key in counts then counts[key] else 0) == CountOf(key, entries)
    ensures forall key | key in counts :: counts[key] > 0
  {
    counts := map[];
    for i := 0 to |entries|
      invariant forall key :: (if key in counts then counts[key] else 0) == CountOf(key, entries[..i])
      invariant forall key | key in counts :: counts[key] > 0
    {
      var key := SummaryKey(entries[i]);
      assert entries[..i + 1][..i] == entries[..i];
      counts := counts[key := (if key in counts then counts[key] else 0) + 1];
    }
    assert entries[..|entries|] == entries;
  }
}
