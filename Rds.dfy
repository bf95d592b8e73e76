/** Reference Design Specification (RDS) references (pkg/mcpserver/rds.go):
    the per-type image configuration, OpenShift version tags and their
    order, the `container://` reference of an RDS image, and the search for
    the first RHEL variant whose repository offers the cluster's version. */
module Rds {
  import opened Wrappers
  import opened Strings
  import opened Errors
  import opened Compare

  // ---------------------------------------------------------------------
  // Configuration

  /** An RDS type's image repository base, the metadata.yaml path inside
      the image, and the RHEL variants to try, most preferred first. */
  datatype RDSConfig = RDSConfig(imageBase: string, path: string, rhelVariants: seq<string>)

  const RedHatRepository: string := "registry.redhat.io/" + "openshift4/"
  const CoreImageBase: string := RedHatRepository + "openshift-telco-core-rds"
  const CorePath: string :=
    "/usr/share/telco-core-rds/" + "configuration/" + "reference-crs-kube-compare/" + "metadata.yaml"
  const RANImageBase: string := RedHatRepository + "ztp-site-generate"
  const RANPath: string := "/home/ztp/reference/" + "metadata.yaml"

  /** `rdsConfigs[rdsType]`: an unknown type reads Go's zero value. */
  function ConfigFor(rdsType: string): RDSConfig {
    if rdsType == "core" then RDSConfig(CoreImageBase, CorePath, ["rhel9", "rhel8"])
    else if rdsType == "ran" then RDSConfig(RANImageBase, RANPath, ["rhel8"])
    else RDSConfig("", "", [])
  }

  // ---------------------------------------------------------------------
  // Version tags

  /** `^v\d+\.\d+$`. */
  predicate IsVersionTag(t: string) {
    |t| >= 1 && t[0] == 'v' &&
    var n1 := DigitRun(t, 1);
    n1 > 0 && 1 + n1 < |t| && t[1 + n1] == '.' &&
    var n2 := DigitRun(t, 2 + n1);
    n2 > 0 && 2 + n1 + n2 == |t|
  }

  /** `^(\d+)\.(\d+)` matches: digits, a dot, digits. */
  predicate HasMajorMinor(version: string) {
    var n1 := DigitRun(version, 0);
    n1 > 0 && n1 < |version| && version[n1] == '.' && DigitRun(version, n1 + 1) > 0
  }

  /** `ExtractMajorMinorVersion`: "v" and the leading major.minor when there
      is one, "v" and the whole input otherwise. The match is greedy: the
      minor digits taken are not followed by another digit. */
  function ExtractMajorMinorVersion(version: string): (r: string)
    ensures HasMajorMinor(version) ==> IsVersionTag(r) && HasPrefix(version, r[1..])
    ensures HasMajorMinor(version) ==> |r| - 1 == |version| || !IsDigit(version[|r| - 1])
    ensures !HasMajorMinor(version) ==> r == "v" + version
  {
    if HasMajorMinor(version) then
      var n1 := DigitRun(version, 0);
      var n2 := DigitRun(version, n1 + 1);
      var r := "v" + version[..n1] + "." + version[n1 + 1..n1 + 1 + n2];
      assert r[1..] == version[..n1 + 1 + n2];
      assert DigitRun(r, 1) == n1 by { DigitRunShift(r, version, n1); }
      assert DigitRun(r, 2 + n1) == n2 by { DigitRunShiftFrom(r, version, n1, n2); }
      r
    else "v" + version
  }

  lemma DigitRunShift(r: string, version: string, n1: nat)
    requires n1 == DigitRun(version, 0) && n1 < |version| && version[n1] == '.'
    requires |r| >= n1 + 2 && r[0] == 'v' && r[1..n1 + 2] == version[..n1 + 1]
    ensures DigitRun(r, 1) == n1
  {
    forall j | 1 <= j < 1 + n1 ensures IsDigit(r[j]) {
      assert r[j] == r[1..n1 + 2][j - 1] == version[j - 1];
    }
    assert r[1 + n1] == r[1..n1 + 2][n1] == '.';
    DigitRunIs(r, 1, n1);
  }

  lemma DigitRunShiftFrom(r: string, version: string, n1: nat, n2: nat)
    requires n1 + 1 <= |version| && n2 == DigitRun(version, n1 + 1)
    requires |r| == n1 + 2 + n2 && r[n1 + 2..] == version[n1 + 1..n1 + 1 + n2]
    ensures DigitRun(r, 2 + n1) == n2
  {
    forall j | 2 + n1 <= j < 2 + n1 + n2 ensures IsDigit(r[j]) {
      assert r[j] == r[n1 + 2..][j - n1 - 2] == version[j - 1];
    }
    DigitRunIs(r, 2 + n1, n2);
  }

  /** Examples: a release-candidate version keeps its major.minor, and a
      text without one is only prefixed. */
  lemma ExtractMajorMinorExamples()
    ensures ExtractMajorMinorVersion("4.20.0-rc.3") == "v4.20"
    ensures ExtractMajorMinorVersion("invalid") == "vinvalid"
  {
    ReleaseCandidateExample();
    assert DigitRun("invalid", 0) == 0;
  }

  /** A release candidate keeps only its major and minor version. */
  lemma ReleaseCandidateExample()
    ensures ExtractMajorMinorVersion("4.20.0-rc.3") == "v4.20"
  {
    assert DigitRun("4.20.0-rc.3", 0) == 1;
    assert DigitRun("4.20.0-rc.3", 2) == 2;
  }

  /** The three facts of the contract pin the result: any version tag that
      is a greedy prefix of the input is the one extracted. */
  lemma ExtractMajorMinorUnique(version: string, t: string)
    requires HasMajorMinor(version) && IsVersionTag(t) && HasPrefix(version, t[1..])
    requires |t| - 1 == |version| || !IsDigit(version[|t| - 1])
    ensures t == ExtractMajorMinorVersion(version)
  {
    var n1 := DigitRun(version, 0);
    var m1 := DigitRun(t, 1);
    var m2 := DigitRun(t, 2 + m1);
    forall j | 0 <= j < |t| - 1 ensures version[j] == t[j + 1] {
      assert t[1..][j] == t[j + 1];
    }
    assert version[m1] == t[1 + m1] == '.';
    assert m1 == n1;
    var n2 := DigitRun(version, n1 + 1);
    assert m2 == n2;
    var r := ExtractMajorMinorVersion(version);
    assert |r| == |t|;
    forall j | 0 <= j < |t| ensures r[j] == t[j] {
      if j > 0 {
        assert r[1..][j - 1] == r[j];
      }
    }
  }

  /** Extracting from a tag's own version text gives the tag back. */
  lemma ExtractOfTag(t: string)
    requires IsVersionTag(t)
    ensures ExtractMajorMinorVersion(t[1..]) == t
  {
    var v := t[1..];
    var n1 := DigitRun(t, 1);
    var n2 := DigitRun(t, 2 + n1);
    DigitRunDrop(t, 1, n1);
    DigitRunDrop(t, 2 + n1, n2);
    assert HasMajorMinor(v);
    assert t == "v" + v[..n1] + "." + v[n1 + 1..n1 + 1 + n2];
  }

  /** Digit runs do not depend on the characters before them. */
  lemma DigitRunDrop(t: string, k: nat, n: nat)
    requires 1 <= k <= |t| && n == DigitRun(t, k)
    ensures DigitRun(t[1..], k - 1) == n
  {
    forall j | k - 1 <= j < k - 1 + n ensures IsDigit(t[1..][j]) {
      assert t[1..][j] == t[j + 1];
    }
    if k + n < |t| {
      assert t[1..][k - 1 + n] == t[k + n];
    }
    DigitRunIs(t[1..], k - 1, n);
  }

  /** The number written by the digits from `k` on, read onto `acc`, and
      the index after them. */
  function ReadDigits(s: string, k: nat, acc: nat): (nat, nat)
    decreases |s| - k
  {
    if k < |s| && IsDigit(s[k]) then ReadDigits(s, k + 1, 10 * acc + (s[k] as int - '0' as int))
    else (acc, k)
  }

  /** `fmt.Sscanf(s, "v%d.%d", &major, &minor)` into Go's 64-bit `int`:
      the numbers it reads, zero for those it does not reach. A number of
      2^63 or more is a scan error that leaves its variable, and the one
      after it, at zero. */
  function ScanVersion(s: string): (r: (int, int))
    ensures 0 <= r.0 <= MaxInt64 && 0 <= r.1 <= MaxInt64
  {
    if s == [] || s[0] != 'v' then (0, 0)
    else
      var (major, end1) := ReadDigits(s, 1, 0);
      if end1 == 1 || major > MaxInt64 then (0, 0)
      else if end1 < |s| && s[end1] == '.' then
        var (minor, end2) := ReadDigits(s, end1 + 1, 0);
        if end2 == end1 + 1 || minor > MaxInt64 then (major, 0) else (major, minor)
      else (major, 0)
  }

  /** Reading a run of digits gives its decimal value. */
  lemma {:induction false} ReadDigitsValue(s: string, k: nat, j: nat)
    requires k <= |s| && k <= j <= k + DigitRun(s, k)
    ensures ReadDigits(s, j, DecimalValue(s[k..j])) == (DecimalValue(s[k..k + DigitRun(s, k)]), k + DigitRun(s, k))
    decreases k + DigitRun(s, k) - j
  {
    var n := DigitRun(s, k);
    if j < k + n {
      assert s[k..j + 1][..j - k] == s[k..j];
      ReadDigitsValue(s, k, j + 1);
    }
  }

  /** `CompareVersionTags`. Both numbers read lie in [0, 2^63), so Go's
      subtractions cannot wrap around: the result fits an `int`. */
  function CompareVersionTags(a: string, b: string): (r: int)
    ensures MinInt64 <= r <= MaxInt64
  {
    var (aMajor, aMinor) := ScanVersion(a);
    var (bMajor, bMinor) := ScanVersion(b);
    if aMajor != bMajor then aMajor - bMajor else aMinor - bMinor
  }

  /** The order is that of the (major, minor) pairs: it is antisymmetric,
      zero exactly on equal pairs, and its sign is the lexicographic one. */
  lemma CompareVersionTagsOrder(a: string, b: string)
    ensures CompareVersionTags(a, b) == -CompareVersionTags(b, a)
    ensures CompareVersionTags(a, b) == 0 <==> ScanVersion(a) == ScanVersion(b)
    ensures CompareVersionTags(a, b) < 0 <==>
      ScanVersion(a).0 < ScanVersion(b).0 ||
      (ScanVersion(a).0 == ScanVersion(b).0 && ScanVersion(a).1 < ScanVersion(b).1)
  {
  }

  /** For a version tag the numbers read are those of its two digit runs,
      so "v4.9" sorts before "v4.18"; a run worth 2^63 or more reads as
      zero, and an overflowing major leaves the minor at zero too. */
  lemma ScanVersionOfTag(t: string)
    requires IsVersionTag(t)
    ensures var n1 := DigitRun(t, 1);
      var major := DecimalValue(t[1..1 + n1]);
      var minor := DecimalValue(t[2 + n1..]);
      ScanVersion(t) ==
        if major > MaxInt64 then (0, 0)
        else if minor > MaxInt64 then (major, 0)
        else (major, minor)
  {
    var n1 := DigitRun(t, 1);
    var n2 := DigitRun(t, 2 + n1);
    var major := DecimalValue(t[1..1 + n1]);
    var minor := DecimalValue(t[2 + n1..]);
    ReadDigitsRun(t, 1);
    ReadDigitsRun(t, 2 + n1);
    assert t[2 + n1..2 + n1 + n2] == t[2 + n1..];
    ScanVersionReads(t, major, n1, minor, n2);
  }

  /** What `ScanVersion` makes of "v", a run of `n1` digits read as
      `major`, a '.' and a run of `n2` digits read as `minor`. */
  lemma ScanVersionReads(t: string, major: nat, n1: nat, minor: nat, n2: nat)
    requires t != [] && t[0] == 'v' && 0 < n1 && 1 + n1 < |t| && t[1 + n1] == '.' && 0 < n2
    requires ReadDigits(t, 1, 0) == (major, 1 + n1) && ReadDigits(t, 2 + n1, 0) == (minor, 2 + n1 + n2)
    ensures ScanVersion(t) ==
      if major > MaxInt64 then (0, 0)
      else if minor > MaxInt64 then (major, 0)
      else (major, minor)
  {
  }

  /** Reading from `k` gives the value of the digit run there. */
  lemma ReadDigitsRun(s: string, k: nat)
    requires k <= |s|
    ensures ReadDigits(s, k, 0) == (DecimalValue(s[k..k + DigitRun(s, k)]), k + DigitRun(s, k))
  {
    assert s[k..k] == [];
    ReadDigitsValue(s, k, k);
  }

  /** A tag whose major number overflows `int` reads as v0.0, so it sorts
      before "v1.0" however large it is. */
  lemma OverflowSortsFirst(t: string)
    requires IsVersionTag(t) && DecimalValue(t[1..1 + DigitRun(t, 1)]) > MaxInt64
    ensures CompareVersionTags(t, "v1.0") < 0
  {
    ScanVersionOfTag(t);
    assert ReadDigits("v1.0", 1, 0) == (1, 2);
  }

  lemma CompareVersionExample()
    ensures CompareVersionTags("v4.9", "v4.18") < 0
  {
    assert ReadDigits("v4.9", 1, 0) == (4, 2);
    assert ReadDigits("v4.9", 3, 0) == (9, 4);
    assert ReadDigits("v4.18", 1, 0) == (4, 2);
    assert ReadDigits("v4.18", 3, 0) == (18, 5);
  }

  // ---------------------------------------------------------------------
  // `FilterVersionTags`

  predicate Le(a: string, b: string) {
    CompareVersionTags(a, b) <= 0
  }

  lemma LeTransitive(a: string, b: string, c: string)
    requires Le(a, b) && Le(b, c)
    ensures Le(a, c)
  {
  }

  /** Non-decreasing under `CompareVersionTags`. */
  predicate SortedTags(s: seq<string>) {
    forall i, j :: 0 <= i < j < |s| ==> Le(s[i], s[j])
  }

  /** The version tags of `tags`, in input order. */
  function VersionTagsOf(tags: seq<string>): seq<string> {
    if tags == [] then []
    else VersionTagsOf(tags[..|tags| - 1]) + (if IsVersionTag(tags[|tags| - 1]) then [tags[|tags| - 1]] else [])
  }

  lemma {:induction false} VersionTagsOfMembers(tags: seq<string>)
    ensures forall t :: t in VersionTagsOf(tags) <==> t in tags && IsVersionTag(t)
  {
    if tags != [] {
      var init := tags[..|tags| - 1];
      VersionTagsOfMembers(init);
      assert tags == init + [tags[|tags| - 1]];
    }
  }

  /** `t` placed before the first element it is not above. */
  function InsertTag(t: string, s: seq<string>): seq<string> {
    if s == [] || Le(t, s[0]) then [t] + s
    else [s[0]] + InsertTag(t, s[1..])
  }

  /** Some non-decreasing arrangement, by insertion. */
  function SortTags(s: seq<string>): seq<string> {
    if s == [] then []
    else InsertTag(s[|s| - 1], SortTags(s[..|s| - 1]))
  }

  /** A head no greater than anything after it extends a sorted sequence. */
  lemma PrependSorted(h: string, rest: seq<string>)
    requires SortedTags(rest)
    requires forall x | x in rest :: Le(h, x)
    ensures SortedTags([h] + rest)
  {
    var r := [h] + rest;
    forall i, j | 0 <= i < j < |r| ensures Le(r[i], r[j]) {
      if i == 0 {
        assert r[j] in rest;
      } else {
        assert r[i] == rest[i - 1] && r[j] == rest[j - 1];
      }
    }
  }

  lemma {:induction false} InsertTagPerm(t: string, s: seq<string>)
    ensures multiset(InsertTag(t, s)) == multiset(s) + multiset{t}
    ensures forall x | x in InsertTag(t, s) :: x == t || x in s
  {
    if s != [] && !Le(t, s[0]) {
      assert s == [s[0]] + s[1..];
      InsertTagPerm(t, s[1..]);
    }
  }

  lemma {:induction false} InsertTagSorted(t: string, s: seq<string>)
    requires SortedTags(s)
    ensures SortedTags(InsertTag(t, s))
  {
    if s == [] {
    } else if Le(t, s[0]) {
      forall x | x in s ensures Le(t, x) {
        var j :| 0 <= j < |s| && s[j] == x;
        if j > 0 {
          LeTransitive(t, s[0], s[j]);
        }
      }
      PrependSorted(t, s);
    } else {
      var rest := InsertTag(t, s[1..]);
      InsertTagSorted(t, s[1..]);
      InsertTagPerm(t, s[1..]);
      CompareVersionTagsOrder(t, s[0]);
      forall x | x in rest ensures Le(s[0], x) {
        if x != t {
          var j :| 0 <= j < |s[1..]| && s[1..][j] == x;
          assert s[j + 1] == x;
        }
      }
      PrependSorted(s[0], rest);
    }
  }

  /** `sort.Slice` with `CompareVersionTags(a, b) < 0` as its less
      function gives some non-decreasing permutation; insertion gives one. */
  lemma {:induction false} SortTagsSorted(s: seq<string>)
    ensures SortedTags(SortTags(s)) && multiset(SortTags(s)) == multiset(s)
  {
    if s != [] {
      var init := s[..|s| - 1];
      SortTagsSorted(init);
      InsertTagSorted(s[|s| - 1], SortTags(init));
      InsertTagPerm(s[|s| - 1], SortTags(init));
      assert s == init + [s[|s| - 1]];
    }
  }

  /** What `FilterVersionTags` returns. */
  function SortedVersionTags(tags: seq<string>): seq<string> {
    SortTags(VersionTagsOf(tags))
  }

  /** `FilterVersionTags`: collects the version tags, then sorts them. */
  method FilterVersionTags(tags: seq<string>) returns (r: seq<string>)
    ensures r == SortedVersionTags(tags)
  {
    var versionTags: seq<string> := [];
    for i := 0 to |tags|
      invariant versionTags == VersionTagsOf(tags[..i])
    {
      assert tags[..i + 1][..i] == tags[..i];
      if IsVersionTag(tags[i]) {
        versionTags := versionTags + [tags[i]];
      }
    }
    assert tags[..|tags|] == tags;
    r := SortTags(versionTags);
  }

  /** The output of `FilterVersionTags` is non-decreasing under
      `CompareVersionTags` and a permutation of exactly the input's version
      tags, so "v4.18.1" and "v4.18-rc.1" are dropped, and nothing comes out
      of an empty input. */
  lemma SortedVersionTagsSpec(tags: seq<string>)
    ensures SortedTags(SortedVersionTags(tags))
    ensures multiset(SortedVersionTags(tags)) == multiset(VersionTagsOf(tags))
    ensures forall t :: t in SortedVersionTags(tags) <==> t in tags && IsVersionTag(t)
    ensures tags == [] ==> SortedVersionTags(tags) == []
  {
    var v := VersionTagsOf(tags);
    var r := SortedVersionTags(tags);
    SortTagsSorted(v);
    VersionTagsOfMembers(tags);
    forall t ensures t in r <==> t in v {
      assert t in r <==> t in multiset(r);
      assert t in v <==> t in multiset(v);
    }
  }

  lemma NotVersionTags()
    ensures !IsVersionTag("v4.18.1") && !IsVersionTag("v4.18-rc.1") && IsVersionTag("v4.18")
  {
    assert DigitRun("v4.18.1", 1) == 1 && DigitRun("v4.18.1", 3) == 2;
    assert DigitRun("v4.18-rc.1", 1) == 1 && DigitRun("v4.18-rc.1", 3) == 2;
    assert DigitRun("v4.18", 1) == 1 && DigitRun("v4.18", 3) == 2;
  }

  /** `ContainsTag`: exact membership, so "V4.18" is not "v4.18". */
  method ContainsTag(tags: seq<string>, target: string) returns (found: bool)
    ensures found <==> target in tags
  {
    for i := 0 to |tags|
      invariant target !in tags[..i]
    {
      if tags[i] == target {
        return true;
      }
      assert tags[..i + 1] == tags[..i] + [tags[i]];
    }
    assert tags[..|tags|] == tags;
    return false;
  }

  // ---------------------------------------------------------------------
  // `BuildRDSReference`

  function RepoRef(cfg: RDSConfig, rhel: string): string {
    cfg.imageBase + "-" + rhel
  }

  /** `BuildRDSReference`. */
  function BuildRDSReference(rdsType: string, rhelVariant: string, ocpVersion: string): string {
    var cfg := ConfigFor(rdsType);
    ContainerPrefix + RepoRef(cfg, rhelVariant) + ":" + ocpVersion + ":" + cfg.path
  }

  /** Two texts without ":/" stay without it when joined, unless the first
      ends in ':' and the second starts with '/'. */
  lemma NoPathSepJoin(a: string, b: string)
    requires NoPathSep(a) && NoPathSep(b)
    requires a == [] || b == [] || a[|a| - 1] != ':' || b[0] != '/'
    ensures NoPathSep(a + b)
  {
    var s := a + b;
    forall i | 0 <= i < |s| ensures !PathSepAt(s, i) {
      if i + 1 < |a| {
        assert !PathSepAt(a, i);
      } else if i >= |a| {
        assert !PathSepAt(b, i - |a|);
      }
    }
  }

  lemma AvoidsColon(s: string)
    requires Avoids(s, ':')
    ensures NoPathSep(s)
  {
  }

  lemma ConfigsWellFormed(rdsType: string)
    requires rdsType == "core" || rdsType == "ran"
    ensures var cfg := ConfigFor(rdsType);
      Avoids(cfg.imageBase, ':') && |cfg.path| > 1 && cfg.path[0] == '/'
  {
    assert Avoids("registry.redhat.io/", ':') && Avoids("openshift4/", ':');
    AvoidsJoin("registry.redhat.io/", "openshift4/", ':');
    if rdsType == "core" {
      assert Avoids("openshift-telco-core-rds", ':');
      AvoidsJoin(RedHatRepository, "openshift-telco-core-rds", ':');
    } else {
      assert Avoids("ztp-site-generate", ':');
      AvoidsJoin(RedHatRepository, "ztp-site-generate", ':');
    }
  }

  /** The cross-file round trip: for both configured types, a reference
      built from a variant and a version without ":/" (the version not
      starting with '/') parses back into the tagged image and the
      metadata.yaml path. */
  lemma RDSReferenceParses(rdsType: string, rhel: string, v: string)
    requires rdsType == "core" || rdsType == "ran"
    requires NoPathSep(rhel) && NoPathSep(v) && (v == [] || v[0] != '/')
    ensures var cfg := ConfigFor(rdsType);
      ContainerReference(BuildRDSReference(rdsType, rhel, v)) ==
      Success(ContainerRef(RepoRef(cfg, rhel) + ":" + v, cfg.path))
  {
    var cfg := ConfigFor(rdsType);
    ConfigsWellFormed(rdsType);
    AvoidsColon(cfg.imageBase);
    NoPathSepJoin(cfg.imageBase, "-");
    NoPathSepJoin(cfg.imageBase + "-", rhel);
    NoPathSepJoin(cfg.imageBase + "-" + rhel, ":");
    NoPathSepJoin(cfg.imageBase + "-" + rhel + ":", v);
    var image := RepoRef(cfg, rhel) + ":" + v;
    assert image == cfg.imageBase + "-" + rhel + ":" + v;
    assert BuildRDSReference(rdsType, rhel, v) == ContainerPrefix + image + ":" + cfg.path;
    assert path1: cfg.path != "/" by { assert |cfg.path| > 1; }
    ContainerReferenceRoundTrip(image, cfg.path);
  }

  // ---------------------------------------------------------------------
  // `findBestRHELVariant`

  /** `ListTags`: the registry's answer for a repository. */
  type Lister = string -> Result<seq<string>, Error>

  /** The variant chosen, its repository, and that repository's version
      tags, sorted. */
  datatype Variant = Variant(rhel: string, repoRef: string, versions: seq<string>)

  /** Why no variant was chosen. */
  datatype VariantProblem =
    | RegistryUnreachable(lastErr: Error)
    | NotReleased(available: seq<string>)
  {
    /** The `registry` error Go returns. */
    function ToError(cfg: RDSConfig, ocpVersion: string): Error {
      match this
      case RegistryUnreachable(lastErr) =>
        CompareError("registry", Plain("could not find RDS image for OpenShift " + ocpVersion),
                     "Failed to access container registry: " + lastErr.Text() +
                     "\n\nThis may be an authentication issue.")
      case NotReleased(available) =>
        CompareError("registry", Plain("rds image not found for OpenShift " + ocpVersion),
                     "Expected image tag: " + ocpVersion + "\nRDS type image base: " + cfg.imageBase +
                     "\nTried RHEL variants: [" + Join(cfg.rhelVariants, " ") + "]" +
                     "\n\nAvailable versions:\n  " + Join(available, "\n  ") +
                     "\n\nThe requested version may not be released yet.")
    }
  }

  /** How a tag listing failed, by the first test of `wrapRegistryError`
      the registry's error text passes. */
  datatype ListFailure = AuthFailed | RepoUnknown | ListFailed

  function ListFailureOf(errText: string): ListFailure {
    if Contains(errText, "UNAUTHORIZED") || Contains(errText, "DENIED") then AuthFailed
    else if Contains(errText, "NAME_UNKNOWN") then RepoUnknown
    else ListFailed
  }

  const RegistryListOp: string := "registry-list"
  const AuthFailedHint: string :=
    "Access denied to the container registry. The image may require authentication."
  const RepoUnknownHint: string := "The RDS repository does not exist for this RHEL version"
  const ListFailedHint: string :=
    "Could not connect to the container registry. Verify network connectivity."

  /** `wrapRegistryError`. */
  function WrapRegistryError(err: Error, repoRef: string): Error {
    WrapListFailure(ListFailureOf(err.Text()), err, repoRef)
  }

  /** The error `wrapRegistryError` builds for a failure of kind `kind`. */
  function WrapListFailure(kind: ListFailure, err: Error, repoRef: string): Error {
    match kind
    case AuthFailed =>
      CompareError(RegistryListOp, Wrap("authentication failed for " + repoRef, err), AuthFailedHint)
    case RepoUnknown =>
      CompareError(RegistryListOp, Plain("repository not found: " + repoRef), RepoUnknownHint)
    case ListFailed =>
      CompareError(RegistryListOp, Wrap("failed to list tags from " + repoRef, err), ListFailedHint)
  }

  /** The wrapped error is a `registry-list` error that keeps the listing
      error in its chain unless the registry reported an unknown
      repository. */
  lemma WrapRegistryErrorCause(kind: ListFailure, err: Error, repoRef: string)
    ensures var r := WrapListFailure(kind, err, repoRef);
      r.CompareError? && r.op == RegistryListOp &&
      (r.err.Unwrap() == [err] <==> kind != RepoUnknown)
  {
    var r := WrapListFailure(kind, err, repoRef);
    if kind == RepoUnknown {
      assert r.err.Unwrap() == [];
    } else {
      assert r.err.Unwrap() == [err];
    }
  }

  function Listing(list: Lister, cfg: RDSConfig, k: nat): Result<seq<string>, Error>
    requires k < |cfg.rhelVariants|
  {
    list(RepoRef(cfg, cfg.rhelVariants[k]))
  }

  /** The `k`-th variant's repository lists the version, and the version is
      a version tag (others are filtered out before the lookup). */
  predicate Offers(list: Lister, cfg: RDSConfig, k: nat, ocpVersion: string)
    requires k < |cfg.rhelVariants|
  {
    Listing(list, cfg, k).Success? && ocpVersion in Listing(list, cfg, k).value && IsVersionTag(ocpVersion)
  }

  /** The last of the first `i` variants whose listing failed: its
      listing error and its repository. */
  function LastListingError(list: Lister, cfg: RDSConfig, i: nat): Option<(Error, string)>
    requires i <= |cfg.rhelVariants|
  {
    if i == 0 then None
    else if Listing(list, cfg, i - 1).Failure? then
      Some((Listing(list, cfg, i - 1).error, RepoRef(cfg, cfg.rhelVariants[i - 1])))
    else LastListingError(list, cfg, i - 1)
  }

  /** One more variant replaces the last error when its listing failed. */
  lemma LastListingErrorStep(list: Lister, cfg: RDSConfig, i: nat)
    requires i < |cfg.rhelVariants|
    ensures LastListingError(list, cfg, i + 1) ==
      if Listing(list, cfg, i).Failure? then Some((Listing(list, cfg, i).error, RepoRef(cfg, cfg.rhelVariants[i])))
      else LastListingError(list, cfg, i)
  {
  }

  /** None of the first `i` variants listed any version tag. */
  predicate NoVersionsBefore(list: Lister, cfg: RDSConfig, i: nat)
    requires i <= |cfg.rhelVariants|
  {
    forall j :: 0 <= j < i ==> Listing(list, cfg, j).Failure? || SortedVersionTags(Listing(list, cfg, j).value) == []
  }

  /** One more variant that listed no version tags keeps the property. */
  lemma NoVersionsStep(list: Lister, cfg: RDSConfig, i: nat)
    requires i < |cfg.rhelVariants| && NoVersionsBefore(list, cfg, i)
    requires Listing(list, cfg, i).Failure? || SortedVersionTags(Listing(list, cfg, i).value) == []
    ensures NoVersionsBefore(list, cfg, i + 1)
  {
  }

  /** `allVersionsFound` at the end: the version tags of the first variant
      that listed any, and none when no variant did. */
  predicate ReportedVersions(list: Lister, cfg: RDSConfig, available: seq<string>) {
    var n := |cfg.rhelVariants|;
    (available == [] && NoVersionsBefore(list, cfg, n)) ||
    exists k :: 0 <= k < n && Listing(list, cfg, k).Success? &&
      available == SortedVersionTags(Listing(list, cfg, k).value) && available != [] &&
      NoVersionsBefore(list, cfg, k)
  }

  /** A registry error is reported exactly when some listing failed. */
  lemma {:induction false} LastListingErrorSome(list: Lister, cfg: RDSConfig, i: nat)
    requires i <= |cfg.rhelVariants|
    ensures LastListingError(list, cfg, i).Some? <==> exists k :: 0 <= k < i && Listing(list, cfg, k).Failure?
  {
    if i > 0 {
      LastListingErrorSome(list, cfg, i - 1);
      if Listing(list, cfg, i - 1).Failure? {
        assert 0 <= i - 1 < i;
      }
    }
  }

  /** A variant that listed its tags offers the version exactly when the
      sorted version tags hold it. */
  lemma OffersListed(list: Lister, cfg: RDSConfig, k: nat, ocpVersion: string)
    requires k < |cfg.rhelVariants| && Listing(list, cfg, k).Success?
    ensures Offers(list, cfg, k, ocpVersion) <==> ocpVersion in SortedVersionTags(Listing(list, cfg, k).value)
  {
    SortedVersionTagsSpec(Listing(list, cfg, k).value);
  }

  /** `findBestRHELVariant`, with the registry's `ListTags` as `list`: the
      first variant, in configured order, whose sorted version tags hold
      the version; otherwise a registry error when some listing failed and a
      not-released error listing the first non-empty set of versions. */
  method FindBestRHELVariant(list: Lister, cfg: RDSConfig, ocpVersion: string)
    returns (r: Result<Variant, VariantProblem>)
    ensures r.Success? ==>
      exists k :: 0 <= k < |cfg.rhelVariants| && Offers(list, cfg, k, ocpVersion) &&
        (forall j :: 0 <= j < k ==> !Offers(list, cfg, j, ocpVersion)) &&
        r.value == Variant(cfg.rhelVariants[k], RepoRef(cfg, cfg.rhelVariants[k]),
                           SortedVersionTags(Listing(list, cfg, k).value))
    ensures r.Failure? ==> forall k :: 0 <= k < |cfg.rhelVariants| ==> !Offers(list, cfg, k, ocpVersion)
    ensures r.Failure? ==> (r.error.RegistryUnreachable? <==> LastListingError(list, cfg, |cfg.rhelVariants|).Some?)
    ensures r.Failure? && r.error.RegistryUnreachable? ==>
      var (err, repoRef) := LastListingError(list, cfg, |cfg.rhelVariants|).value;
      r.error.lastErr == WrapRegistryError(err, repoRef)
    ensures r.Failure? && r.error.NotReleased? ==> ReportedVersions(list, cfg, r.error.available)
  {
    var lastErr: Option<(Error, string)> := None;
    var allVersionsFound: seq<string> := [];
    ghost var seenAt := -1;
    var i := 0;
    while i < |cfg.rhelVariants|
      invariant 0 <= i <= |cfg.rhelVariants|
      invariant forall j :: 0 <= j < i ==> !Offers(list, cfg, j, ocpVersion)
      invariant lastErr == LastListingError(list, cfg, i)
      invariant seenAt == -1 ==> allVersionsFound == [] && NoVersionsBefore(list, cfg, i)
      invariant seenAt >= 0 ==>
        seenAt < i && Listing(list, cfg, seenAt).Success? &&
        allVersionsFound == SortedVersionTags(Listing(list, cfg, seenAt).value) && allVersionsFound != [] &&
        NoVersionsBefore(list, cfg, seenAt)
    {
      var rhel := cfg.rhelVariants[i];
      var repoRef := cfg.imageBase + "-" + rhel;
      var tags := list(repoRef);
      assert repoRef == RepoRef(cfg, rhel) && tags == Listing(list, cfg, i);
      LastListingErrorStep(list, cfg, i);
      if tags.Failure? {
        lastErr := Some((tags.error, repoRef));
        if seenAt == -1 {
          NoVersionsStep(list, cfg, i);
        }
        i := i + 1;
        continue;
      }
      var versions := FilterVersionTags(tags.value);
      if |allVersionsFound| == 0 {
        allVersionsFound := versions;
        if versions != [] {
          seenAt := i;
        } else {
          NoVersionsStep(list, cfg, i);
        }
      }
      OffersListed(list, cfg, i, ocpVersion);
      var found := ContainsTag(versions, ocpVersion);
      if found {
        return Success(Variant(rhel, repoRef, versions));
      }
      i := i + 1;
    }
    if lastErr.Some? {
      return Failure(RegistryUnreachable(WrapRegistryError(lastErr.value.0, lastErr.value.1)));
    }
    return Failure(NotReleased(allVersionsFound));
  }
}
