/** The names of mobile releases (scripts/mobile-release-ref.ts): versions YYYY.M.P,
    the Android version codes derived from them, and the ref of a release. */
module ReleaseVersions {
  import opened Basics
  import opened LocaleTree
  import ReleaseRefs

  // ----------------------------------------------------------- digits and numbers

  predicate IsDigit(c: char) {
    '0' <= c <= '9'
  }

  predicate AllDigits(text: string) {
    forall i | 0 <= i < |text| :: IsDigit(text[i])
  }

  /** `[1-9]\d*` */
  predicate IsPositive(text: string) {
    text != "" && AllDigits(text) && text[0] != '0'
  }

  /** The number a string of digits denotes. */
  function Value(text: string): nat
    requires AllDigits(text)
  {
    if text == "" then 0 else 10 * Value(text[..|text| - 1]) + (text[|text| - 1] - '0') as int
  }

  function Power(n: nat): (p: nat)
    ensures p > 0
  {
    if n == 0 then 1 else 10 * Power(n - 1)
  }

  lemma {:induction false} ValueOfConcat(a: string, b: string)
    requires AllDigits(a) && AllDigits(b)
    ensures AllDigits(a + b) && Value(a + b) == Value(a) * Power(|b|) + Value(b)
  {
    if b == "" {
      assert a + b == a;
    } else {
      var init := b[..|b| - 1];
      assert (a + b)[..|a + b| - 1] == a + init;
      ValueOfConcat(a, init);
      calc {
        Value(a + b);
        10 * (Value(a) * Power(|init|) + Value(init)) + (b[|b| - 1] - '0') as int;
        10 * (Value(a) * Power(|init|)) + Value(b);
        { ByTen(Value(a), Power(|init|)); }
        Value(a) * Power(|b|) + Value(b);
      }
    }
  }

  lemma ByTen(x: nat, p: nat)
    ensures 10 * (x * p) == x * (10 * p)
  {
  }

  lemma {:induction false} ValueIsBelowPower(text: string)
    requires AllDigits(text)
    ensures Value(text) < Power(|text|)
  {
    if text != "" { ValueIsBelowPower(text[..|text| - 1]); }
  }

  lemma {:induction false} ValueOfPositive(text: string)
    requires IsPositive(text)
    ensures Power(|text| - 1) <= Value(text)
  {
    if |text| == 1 {
      assert text[..0] == "";
    } else {
      ValueOfPositive(text[..|text| - 1]);
    }
  }

  /** Digit strings of one length that denote one number are the same. */
  lemma {:induction false} ValueIsInjective(a: string, b: string)
    requires AllDigits(a) && AllDigits(b) && |a| == |b| && Value(a) == Value(b)
    ensures a == b
  {
    if a != "" {
      ValueIsInjective(a[..|a| - 1], b[..|b| - 1]);
      assert a == a[..|a| - 1] + [a[|a| - 1]] && b == b[..|b| - 1] + [b[|b| - 1]];
    }
  }

  // ------------------------------------------------------------------- versions

  /** `20\d{2}\.(?:[1-9]\d?)\.(?:[1-9]\d*)`, piece by piece. */
  predicate IsVersion(text: string) {
    var pieces := Split(text);
    && |pieces| == 3
    && |pieces[0]| == 4 && pieces[0][..2] == "20" && AllDigits(pieces[0])
    && IsPositive(pieces[1]) && |pieces[1]| <= 2
    && IsPositive(pieces[2])
  }

  datatype Problem = InvalidVersion | InvalidNumber | InvalidVersionCode

  function ValidateVersion(version: string): Result<string, Problem> {
    if IsVersion(Trim(version)) then Success(Trim(version)) else Failure(InvalidVersion)
  }

  function ValidatePositiveInteger(value: Option<string>): Result<string, Problem> {
    var trimmed := if value.Some? then Trim(value.value) else "";
    if IsPositive(trimmed) then Success(trimmed) else Failure(InvalidNumber)
  }

  /** `padStart(2, "0")` */
  function Padded(text: string): string {
    if |text| == 0 then "00" else if |text| == 1 then "0" + text else text
  }

  function VersionCodePrefix(version: string): string
    requires IsVersion(version)
  {
    Split(version)[0] + Padded(Split(version)[1]) + Padded(Split(version)[2])
  }

  /** The numbers of a version. */
  function Year(version: string): nat
    requires IsVersion(version)
  {
    Value(Split(version)[0])
  }

  function Month(version: string): nat
    requires IsVersion(version)
  {
    Value(Split(version)[1])
  }

  function Patch(version: string): nat
    requires IsVersion(version)
  {
    Value(Split(version)[2])
  }

  /** How many digits the patch takes in a version code. */
  function PatchWidth(version: string): nat
    requires IsVersion(version)
  {
    |Padded(Split(version)[2])|
  }

  function ValidateVersionCode(version: string, versionCode: Option<string>): Result<string, Problem>
    requires IsVersion(version)
  {
    var code := ValidatePositiveInteger(versionCode);
    if code.Failure? then code
    else if IsCodeFor(version, code.value) then code
    else Failure(InvalidVersionCode)
  }

  /** The five tests on a code; `Number.parseInt` of the rest is a number unless there
      is no rest. */
  predicate IsCodeFor(version: string, code: string)
    requires IsVersion(version)
  {
    var prefix := VersionCodePrefix(version);
    && IsPositive(code)
    && StartsWithAt(code, 0, prefix)
    && |code| == |prefix| + 2
    && 1 <= Value(code[|prefix|..]) <= 99
  }

  /** A code is valid exactly if it is the prefix followed by two digits other than 00:
      every version has the codes 01 to 99 and no others. */
  lemma {:induction false} CodesOfVersion(version: string, code: string)
    requires IsVersion(version)
    ensures IsCodeFor(version, code) <==>
              exists a: char, b: char ::
                '0' <= a <= '9' && '0' <= b <= '9' && [a, b] != "00" && code == VersionCodePrefix(version) + [a, b]
  {
    var prefix := VersionCodePrefix(version);
    if IsCodeFor(version, code) {
      var a, b := code[|prefix|], code[|prefix| + 1];
      assert code[|prefix|..] == [a, b] && code == prefix + [a, b];
      assert Value("00") == 0 by { assert "00"[..1] == "0" && "0"[..0] == ""; }
      assert IsDigit(a) && IsDigit(b) && [a, b] != "00";
    }
    if a: char, b: char :| IsDigit(a) && IsDigit(b) && [a, b] != "00" && code == prefix + [a, b] {
      assert code[|prefix|..] == [a, b] && code[..|prefix|] == prefix;
      ValueOfTwo(a, b);
      assert code[0] == '2' by { assert Split(version)[0][..2] == "20"; assert Split(version)[0][0] == "20"[0]; }
      PrefixIsDigits(version);
    }
  }

  lemma {:induction false} ValueOfTwo(a: char, b: char)
    requires IsDigit(a) && IsDigit(b)
    ensures Value([a, b]) == 10 * (a - '0') as int + (b - '0') as int
    ensures [a, b] != "00" <==> Value([a, b]) != 0
  {
    assert [a, b][..1] == [a] && [a][..0] == "";
    assert Value([a]) == (a - '0') as int by { assert Value("") == 0; }
  }

  lemma {:induction false} PaddedKeepsValue(text: string)
    requires IsPositive(text)
    ensures AllDigits(Padded(text)) && Value(Padded(text)) == Value(text) && |Padded(text)| >= 2
  {
    if |text| == 1 {
      ValueOfConcat("0", text);
      assert Value("0") == 0 by { assert "0"[..0] == ""; }
    }
  }

  lemma {:induction false} PaddedIsInjective(a: string, b: string)
    requires IsPositive(a) && IsPositive(b) && Padded(a) == Padded(b)
    ensures a == b
  {
    if |a| == 1 && |b| == 1 {
      assert a == Padded(a)[1..] && b == Padded(b)[1..];
    }
  }

  lemma {:induction false} PrefixIsDigits(version: string)
    requires IsVersion(version)
    ensures AllDigits(VersionCodePrefix(version))
    ensures |VersionCodePrefix(version)| == 6 + PatchWidth(version)
  {
    PaddedKeepsValue(Split(version)[1]);
    PaddedKeepsValue(Split(version)[2]);
  }

  /** A code that is valid for two versions forces them to be the same version. */
  lemma {:induction false} CodeDeterminesVersion(a: string, b: string, code: string)
    requires IsVersion(a) && IsVersion(b) && IsCodeFor(a, code) && IsCodeFor(b, code)
    ensures a == b
  {
    var p, q := Split(a), Split(b);
    var prefix := code[..|code| - 2];
    assert VersionCodePrefix(a) == VersionCodePrefix(b) == prefix;
    PrefixIsDigits(a);
    PrefixIsDigits(b);
    assert p[0] == prefix[..4] == q[0];
    assert Padded(p[1]) == prefix[4..6] == Padded(q[1]);
    assert Padded(p[2]) == prefix[6..] == Padded(q[2]);
    PaddedIsInjective(p[1], q[1]);
    PaddedIsInjective(p[2], q[2]);
    assert p == q;
    JoinSplit(a);
    JoinSplit(b);
  }

  // ------------------------------------------------------------- order of codes

  /** The two digits after the prefix. */
  function Upload(version: string, code: string): nat
    requires IsVersion(version) && IsCodeFor(version, code)
  {
    Value(code[|VersionCodePrefix(version)|..])
  }

  /** The number a code stands for. */
  lemma {:induction false} ValueOfCode(version: string, code: string)
    requires IsVersion(version) && IsCodeFor(version, code)
    ensures Value(code) == ((Year(version) * 100 + Month(version)) * Power(PatchWidth(version)) + Patch(version)) * 100
                           + Upload(version, code)
    ensures Month(version) < 100 && Patch(version) < Power(PatchWidth(version)) && 1 <= Upload(version, code) < 100
    ensures |code| == 8 + PatchWidth(version)
  {
    var pieces := Split(version);
    var year, month, patch := pieces[0], Padded(pieces[1]), Padded(pieces[2]);
    var prefix := VersionCodePrefix(version);
    PrefixIsDigits(version);
    PaddedKeepsValue(pieces[1]);
    PaddedKeepsValue(pieces[2]);
    assert Power(2) == 100 by { assert Power(1) == 10; }
    hide Value, Power, Padded, Split;
    ValueOfConcat(year, month);
    ValueOfConcat(year + month, patch);
    assert code == prefix + code[|prefix|..];
    ValueOfConcat(prefix, code[|prefix|..]);
    ValueIsBelowPower(month);
    ValueIsBelowPower(patch);
  }

  /** Lexicographic order of year, month, patch and upload. */
  predicate Before(a: string, aCode: string, b: string, bCode: string)
    requires IsVersion(a) && IsCodeFor(a, aCode) && IsVersion(b) && IsCodeFor(b, bCode)
  {
    || Year(a) < Year(b)
    || (Year(a) == Year(b) && Month(a) < Month(b))
    || (Year(a) == Year(b) && Month(a) == Month(b) && Patch(a) < Patch(b))
    || (Year(a) == Year(b) && Month(a) == Month(b) && Patch(a) == Patch(b) && Upload(a, aCode) < Upload(b, bCode))
  }

  lemma {:induction false} HighPartDecides(x: int, y: int, i: int, j: int, k: int)
    requires 0 <= i < k && 0 <= j < k
    ensures x * k + i < y * k + j <==> x < y || (x == y && i < j)
  {
    if x < y {
      MoreTimes(x, y, k);
    } else if y < x {
      MoreTimes(y, x, k);
    }
  }

  lemma {:induction false} MoreTimes(x: int, y: int, k: int)
    requires x < y && k > 0
    ensures x * k + k <= y * k
  {
    assert (y - x - 1) * k >= 0;
    assert (y - x - 1) * k == y * k - x * k - k;
  }

  /** With patches of one width, codes are ordered as year, month, patch, upload. */
  lemma {:induction false} CodesOfOneWidthAreOrdered(a: string, aCode: string, b: string, bCode: string)
    requires IsVersion(a) && IsCodeFor(a, aCode) && IsVersion(b) && IsCodeFor(b, bCode)
    requires PatchWidth(a) == PatchWidth(b)
    ensures Value(aCode) < Value(bCode) <==> Before(a, aCode, b, bCode)
  {
    hide Value, Power, Year, Month, Patch, Upload, PatchWidth, Before;
    ValueOfCode(a, aCode);
    ValueOfCode(b, bCode);
    BeforeIsLexLess(a, aCode, b, bCode);
    hide *;
    NumbersAreOrdered(Year(a), Month(a), Patch(a), Upload(a, aCode), Value(aCode),
                      Year(b), Month(b), Patch(b), Upload(b, bCode), Value(bCode), Power(PatchWidth(a)));
  }

  lemma {:induction false} BeforeIsLexLess(a: string, aCode: string, b: string, bCode: string)
    requires IsVersion(a) && IsCodeFor(a, aCode) && IsVersion(b) && IsCodeFor(b, bCode)
    ensures Before(a, aCode, b, bCode) <==>
              LexLess(Year(a), Month(a), Patch(a), Upload(a, aCode), Year(b), Month(b), Patch(b), Upload(b, bCode))
  {
    hide IsVersion, IsCodeFor, Year, Month, Patch, Upload;
  }

  predicate LexLess(y: int, m: int, p: int, u: int, y': int, m': int, p': int, u': int) {
    y < y' || (y == y' && (m < m' || (m == m' && (p < p' || (p == p' && u < u')))))
  }

  lemma {:induction false} NumbersAreOrdered(y: int, m: int, p: int, u: int, v: int, y': int, m': int, p': int,
        u': int, v': int, k: int)
    requires v == ((y * 100 + m) * k + p) * 100 + u && v' == ((y' * 100 + m') * k + p') * 100 + u'
    requires 0 <= m < 100 && 0 <= m' < 100 && 0 <= p < k && 0 <= p' < k && 0 <= u < 100 && 0 <= u' < 100
    ensures v < v' <==> LexLess(y, m, p, u, y', m', p', u')
  {
    var x, x' := y * 100 + m, y' * 100 + m';
    HighPartDecides(y, y', m, m', 100);
    HighPartDecides(x, x', p, p', k);
    HighPartDecides(x', x, p', p, k);
    HighPartDecides(x * k + p, x' * k + p', u, u', 100);
  }

  lemma {:induction false} PowerGrows(a: nat, b: nat)
    requires a <= b
    ensures Power(a) <= Power(b)
  {
    if a < b { PowerGrows(a, b - 1); }
  }

  /** A code with a wider patch is the larger one, whatever the versions. */
  lemma {:induction false} WiderPatchWins(a: string, aCode: string, b: string, bCode: string)
    requires IsVersion(a) && IsCodeFor(a, aCode) && IsVersion(b) && IsCodeFor(b, bCode)
    requires PatchWidth(a) < PatchWidth(b)
    ensures Value(aCode) < Value(bCode)
  {
    ValueOfCode(a, aCode);
    ValueOfCode(b, bCode);
    ValueIsBelowPower(aCode);
    ValueOfPositive(bCode);
    PowerGrows(|aCode|, |bCode| - 1);
  }

  /** Of two uploads in order, the codes are in order exactly if the patch of the
      earlier version is not wider than that of the later one. */
  lemma {:induction false} OrderIsKeptIff(a: string, aCode: string, b: string, bCode: string)
    requires IsVersion(a) && IsCodeFor(a, aCode) && IsVersion(b) && IsCodeFor(b, bCode)
    requires Before(a, aCode, b, bCode)
    ensures Value(aCode) < Value(bCode) <==> PatchWidth(a) <= PatchWidth(b)
  {
    if PatchWidth(a) < PatchWidth(b) {
      WiderPatchWins(a, aCode, b, bCode);
    } else if PatchWidth(a) == PatchWidth(b) {
      CodesOfOneWidthAreOrdered(a, aCode, b, bCode);
    } else {
      WiderPatchWins(b, bCode, a, aCode);
    }
  }

  /** Patches below 100 all have width two, so their codes are always in order. */
  lemma {:induction false} SmallPatchesHaveWidthTwo(version: string)
    requires IsVersion(version)
    ensures Patch(version) < 100 <==> PatchWidth(version) == 2
  {
    var patch := Split(version)[2];
    ValueOfPositive(patch);
    ValueIsBelowPower(patch);
    assert Power(2) == 100 by { assert Power(1) == 10; }
    if |patch| > 2 {
      PowerGrows(2, |patch| - 1);
    } else {
      PowerGrows(|patch|, 2);
    }
  }

  lemma {:induction false} VersionOf(month: string, patch: string)
    requires IsPositive(month) && |month| <= 2 && IsPositive(patch)
    ensures var version := "2026" + "." + month + "." + patch;
            IsVersion(version) && Split(version) == ["2026", month, patch]
  {
    var pieces := ["2026", month, patch];
    assert AllDotFree(pieces);
    assert pieces[..2] == ["2026", month] && pieces[..2][..1] == ["2026"];
    assert Join(pieces[..2]) == "2026" + "." + month;
    assert Join(pieces) == "2026" + "." + month + "." + patch;
    hide Split, Join;
    SplitJoin(pieces);
  }

  const JANUARY := "2026.1.100"
  const FEBRUARY := "2026.2.1"

  lemma {:induction false} JanuaryAndFebruary()
    ensures IsVersion(JANUARY) && IsVersion(FEBRUARY)
    ensures Year(JANUARY) == Year(FEBRUARY) && Month(JANUARY) < Month(FEBRUARY)
    ensures PatchWidth(JANUARY) == 3 && PatchWidth(FEBRUARY) == 2
  {
    assert Value("1") == 1 && Value("2") == 2 by { assert "1"[..0] == "" && "2"[..0] == ""; }
    hide Split, Value, IsVersion;
    VersionOf("1", "100");
    VersionOf("2", "1");
    assert JANUARY == "2026" + "." + "1" + "." + "100" && FEBRUARY == "2026" + "." + "2" + "." + "1";
  }

  /** Beyond that they need not be: all of January's codes are larger than all of
      February's, although they come before. */
  lemma {:induction false} WidePatchBreaksOrder(aCode: string, bCode: string)
    requires IsVersion(JANUARY) && IsCodeFor(JANUARY, aCode) && IsVersion(FEBRUARY) && IsCodeFor(FEBRUARY, bCode)
    ensures Before(JANUARY, aCode, FEBRUARY, bCode) && Value(aCode) > Value(bCode)
  {
    JanuaryAndFebruary();
    hide IsVersion, VersionCodePrefix, Year, Month, PatchWidth, Split, IsCodeFor;
    WiderPatchWins(FEBRUARY, bCode, JANUARY, aCode);
  }

  // ----------------------------------------------------------------------- refs

  datatype Platform = Ios | Android

  /** What is left of the options once they are validated. */
  datatype Release = Release(platform: Platform, version: string, number: string)

  function Normalise(platform: Platform, version: string, build: Option<string>, versionCode: Option<string>)
    : Result<Release, Problem>
  {
    var valid := ValidateVersion(version);
    if valid.Failure? then Failure(valid.error)
    else
      var number := if platform.Ios? then ValidatePositiveInteger(build)
          else ValidateVersionCode(valid.value, versionCode);
      if number.Failure? then Failure(number.error) else Success(Release(platform, valid.value, number.value))
  }

  const REF_PREFIX := "refs/openclaw/mobile-releases"

  function PlatformPath(platform: Platform): string {
    if platform.Ios? then "/ios/" else "/android/"
  }

  function RefOf(release: Release): string {
    REF_PREFIX + (PlatformPath(release.platform) + (release.version + "-" + release.number))
  }

  /** An iOS release is recorded under its build, an Android release under its version code. */
  lemma {:induction false} RefNamesRelease(release: Release)
    ensures release.platform.Ios? ==>
              RefOf(release) == "refs/openclaw/mobile-releases/ios/" + release.version + "-" + release.number
    ensures release.platform.Android? ==>
              RefOf(release) == "refs/openclaw/mobile-releases/android/" + release.version + "-" + release.number
  {
    var path := PlatformPath(release.platform);
    assert RefOf(release) == REF_PREFIX + path + release.version + "-" + release.number;
  }

  function MobileReleaseRefFor(platform: Platform, version: string, build: Option<string>, versionCode: Option<string>)
    : Result<string, Problem>
  {
    var release := Normalise(platform, version, build, versionCode);
    if release.Failure? then Failure(release.error) else Success(RefOf(release.value))
  }

  /** What is accepted, and the ref it gets: an iOS release needs a build, an Android
      release a version code for its version; blanks around either do not matter. */
  lemma {:induction false} RefOfOptions(
      platform: Platform, version: string, build: Option<string>, versionCode: Option<string>, ref: string)
    ensures MobileReleaseRefFor(platform, version, build, versionCode) == Success(ref) <==>
              && IsVersion(Trim(version))
              && match platform
                 case Ios =>
                   && build.Some? && IsPositive(Trim(build.value))
                   && ref == "refs/openclaw/mobile-releases/ios/" + Trim(version) + "-" + Trim(build.value)
                 case Android =>
                   && versionCode.Some? && IsCodeFor(Trim(version), Trim(versionCode.value))
                   && ref == "refs/openclaw/mobile-releases/android/" + Trim(version) + "-" + Trim(versionCode.value)
  {
    assert !IsPositive("");
    var release := Normalise(platform, version, build, versionCode);
    hide Trim, IsVersion, IsPositive, VersionCodePrefix, RefOf;
    if release.Success? {
      RefNamesRelease(release.value);
    }
  }

  predicate DashFree(text: string) {
    forall i | 0 <= i < |text| :: text[i] != '-'
  }

  lemma {:induction false} PiecesWithoutDash(key: string)
    requires forall i | 0 <= i < |Split(key)| :: DashFree(Split(key)[i])
    ensures DashFree(key)
  {
    if key != "" {
      var init, parts := key[..|key| - 1], Split(key[..|key| - 1]);
      if key[|key| - 1] != '.' {
        var last := parts[|parts| - 1];
        assert Split(key)[|parts| - 1] == last + [key[|key| - 1]];
        forall i | 0 <= i < |last| ensures last[i] != '-' {
          assert (last + [key[|key| - 1]])[i] != '-';
        }
        assert (last + [key[|key| - 1]])[|last|] != '-';
      }
      forall i | 0 <= i < |parts| ensures DashFree(parts[i]) {
        assert i < |parts| - 1 || key[|key| - 1] == '.' ==> parts[i] == Split(key)[i];
      }
      PiecesWithoutDash(init);
    }
  }

  lemma {:induction false} FirstDashSplits(a: string, b: string, c: string, d: string)
    requires DashFree(a) && DashFree(c) && a + "-" + b == c + "-" + d
    ensures a == c && b == d
  {
    var whole := a + "-" + b;
    assert whole[|a|] == '-' && whole[|c|] == '-';
    assert forall i | 0 <= i < |a| :: whole[i] == a[i];
    assert forall i | 0 <= i < |c| :: whole[i] == c[i];
    assert a == whole[..|a|] == c && b == whole[|a| + 1..] == d;
  }

  lemma {:induction false} CancelPrefix(prefix: string, a: string, b: string)
    requires prefix + a == prefix + b
    ensures a == b
  {
    assert a == (prefix + a)[|prefix|..] && b == (prefix + b)[|prefix|..];
  }

  lemma {:induction false} PathsDiffer(a: Platform, x: string, b: Platform, y: string)
    requires PlatformPath(a) + x == PlatformPath(b) + y
    ensures a == b
  {
    assert (PlatformPath(a) + x)[1] == (if a.Ios? then 'i' else 'a');
    assert (PlatformPath(b) + y)[1] == (if b.Ios? then 'i' else 'a');
  }

  lemma {:induction false} VersionsHaveNoDash(version: string)
    requires IsVersion(version)
    ensures DashFree(version)
  {
    PiecesWithoutDash(version);
  }

  /** Two releases share a ref only if platform, version and number are all the same. */
  lemma {:induction false} RefIsInjective(a: Release, b: Release)
    requires IsVersion(a.version) && IsVersion(b.version) && RefOf(a) == RefOf(b)
    ensures a == b
  {
    hide IsVersion, PlatformPath, DashFree;
    var x, y := a.version + "-" + a.number, b.version + "-" + b.number;
    CancelPrefix(REF_PREFIX, PlatformPath(a.platform) + x, PlatformPath(b.platform) + y);
    PathsDiffer(a.platform, x, b.platform, y);
    CancelPrefix(PlatformPath(a.platform), x, y);
    VersionsHaveNoDash(a.version);
    VersionsHaveNoDash(b.version);
    FirstDashSplits(a.version, a.number, b.version, b.number);
  }

  /** What `mobileReleaseRefFor` accepts is what it normalises; accepted inputs share a
      ref exactly if they differ at most in surrounding blanks and unused options. */
  lemma {:induction false} RefsIdentifyReleases(p: Platform, v: string, build: Option<string>, code: Option<string>,
                                                q: Platform, w: string, build': Option<string>, code': Option<string>)
    requires MobileReleaseRefFor(p, v, build, code).Success? && MobileReleaseRefFor(q, w, build', code').Success?
    ensures MobileReleaseRefFor(p, v, build, code) == MobileReleaseRefFor(q, w, build', code')
       <==> && p == q && Trim(v) == Trim(w)
            && (if p.Ios? then Trim(build.value) == Trim(build'.value) else Trim(code.value) == Trim(code'.value))
    ensures p.Android? && q.Android? && Trim(code.value) == Trim(code'.value) ==>
              MobileReleaseRefFor(p, v, build, code) == MobileReleaseRefFor(q, w, build', code')
  {
    var a, b := Normalise(p, v, build, code).value, Normalise(q, w, build', code').value;
    if RefOf(a) == RefOf(b) {
      RefIsInjective(a, b);
    }
    if p.Android? && q.Android? && a.number == b.number {
      CodeDeterminesVersion(a.version, b.version, a.number);
    }
  }

  /** Recording one release never touches the ref of another. */
  lemma {:induction false} ReleasesAreIndependent(world: ReleaseRefs.World, id: nat, network: ReleaseRefs.Network,
                                                  mine: Release, other: Release)
    requires IsVersion(mine.version) && IsVersion(other.version) && mine != other
    requires id < |world.runs| && world.runs[id].ref == RefOf(mine)
    ensures ReleaseRefs.ReadRef(ReleaseRefs.Step(world, ReleaseRefs.GitCall(id, network)).refs, RefOf(other))
         == ReleaseRefs.ReadRef(world.refs, RefOf(other))
  {
    if RefOf(mine) == RefOf(other) {
      RefIsInjective(mine, other);
    }
  }
}
