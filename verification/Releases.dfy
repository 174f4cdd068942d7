/** selectReleaseFiles of internal/pypi/handler.go: one broadly useful file for each of the newest
    releases that have a usable file. */
module Releases {
  import opened Records
  import opened Sorting
  import opened Text

  datatype ReleaseFile = ReleaseFile(filename: string, url: string, packageType: string, yanked: bool, uploadTime: string)

  datatype Release = Release(version: string, time: int, files: seq<ReleaseFile>)

  /** Parsing an upload time as RFC 3339: an instant counted from Go's zero time, or a failure. */
  type TimeParser = string -> Option<int>

  const ZERO_TIME: int := 0

  // ---- What is usable, and how new it is ----

  predicate IsUsable(file: ReleaseFile) { !file.yanked && file.url != "" }

  function Usable(files: seq<ReleaseFile>): (r: seq<ReleaseFile>)
    ensures forall f :: f in r <==> f in files && IsUsable(f)
  {
    if files == [] then [] else
      var r := Usable(files[..|files| - 1]);
      var last := files[|files| - 1];
      assert files == files[..|files| - 1] + [last];
      if IsUsable(last) then r + [last] else r
  }

  /** The latest readable upload time of a usable file, at least the zero time. */
  function Latest(parse: TimeParser, files: seq<ReleaseFile>): (t: int)
    ensures t >= ZERO_TIME
    ensures forall f :: f in files && IsUsable(f) && parse(f.uploadTime) != None ==> parse(f.uploadTime).value <= t
    ensures t == ZERO_TIME || exists f :: f in files && IsUsable(f) && parse(f.uploadTime) == Some(t)
  {
    if files == [] then ZERO_TIME else
      var t := Latest(parse, files[..|files| - 1]);
      var last := files[|files| - 1];
      assert files == files[..|files| - 1] + [last];
      if IsUsable(last) && parse(last.uploadTime) != None && parse(last.uploadTime).value > t
      then parse(last.uploadTime).value else t
  }

  function UsableVersions(releases: map<string, seq<ReleaseFile>>): set<string> {
    set version | version in releases && Usable(releases[version]) != []
  }

  // ---- The order of releases ----

  /** Later upload first; the greater version string on a tie. */
  predicate Newer(a: Release, b: Release) {
    a.time > b.time || (a.time == b.time && CompareStrings(a.version, b.version) > 0)
  }

  lemma NewerStrict()
    ensures StrictWeakOrder(Newer)
  {
    forall a: Release { CompareStringsAntisymmetric(a.version, a.version); }
    forall a: Release, b: Release { CompareStringsAntisymmetric(a.version, b.version); }
    forall a: Release, b: Release, c: Release | Newer(a, b) && Newer(b, c)
      ensures Newer(a, c)
    {
      NewerTransitive(a, b, c);
    }
    forall a: Release, b: Release, c: Release | Newer(a, b)
      ensures Newer(a, c) || Newer(c, b)
    {
      NewerSplits(a, b, c);
    }
  }

  lemma NewerTransitive(a: Release, b: Release, c: Release)
    requires Newer(a, b) && Newer(b, c)
    ensures Newer(a, c)
  {
    hide CompareStrings;
    CompareStringsAntisymmetric(a.version, b.version);
    CompareStringsAntisymmetric(b.version, c.version);
    CompareStringsAntisymmetric(a.version, c.version);
    if a.time == b.time == c.time {
      CompareStringsTransitive(c.version, b.version, a.version);
    }
  }

  lemma NewerSplits(a: Release, b: Release, c: Release)
    requires Newer(a, b)
    ensures Newer(a, c) || Newer(c, b)
  {
    hide CompareStrings;
    CompareStringsAntisymmetric(a.version, b.version);
    CompareStringsAntisymmetric(a.version, c.version);
    CompareStringsAntisymmetric(c.version, b.version);
    if a.time == b.time == c.time && !Newer(a, c) && !Newer(c, b) {
      CompareStringsTransitive(a.version, c.version, b.version);
    }
  }

  /** On distinct versions the order is total, so there are no ties for a sort to break. */
  lemma NewerTotal(a: Release, b: Release)
    requires a.version != b.version
    ensures Newer(a, b) <==> !Newer(b, a)
  {
    CompareStringsAntisymmetric(a.version, b.version);
  }

  // ---- The file of a release ----

  predicate HasSuffix(s: string, suffix: string) {
    |suffix| <= |s| && s[|s| - |suffix|..] == suffix
  }

  predicate IsUniversalWheel(file: ReleaseFile) {
    && file.packageType == "bdist_wheel"
    && (HasSuffix(file.filename, "-py3-none-any.whl") || HasSuffix(file.filename, "-py2.py3-none-any.whl"))
  }

  predicate IsSdist(file: ReleaseFile) { file.packageType == "sdist" }

  /** By its name: a wheel for every Python 3, or for 2 and 3, of any platform. */
  lemma UniversalWheelNames(file: ReleaseFile)
    ensures IsUniversalWheel(file) <==>
              file.packageType == "bdist_wheel"
              && exists name :: file.filename == name + "-py3-none-any.whl" || file.filename == name + "-py2.py3-none-any.whl"
  {
    var f := file.filename;
    if HasSuffix(f, "-py3-none-any.whl") {
      assert f == f[..|f| - |"-py3-none-any.whl"|] + "-py3-none-any.whl";
    }
    if HasSuffix(f, "-py2.py3-none-any.whl") {
      assert f == f[..|f| - |"-py2.py3-none-any.whl"|] + "-py2.py3-none-any.whl";
    }
  }

  function IndexWhere(files: seq<ReleaseFile>, p: ReleaseFile -> bool): (k: nat)
    ensures k <= |files|
    ensures k < |files| ==> p(files[k])
    ensures forall m :: 0 <= m < k ==> !p(files[m])
  {
    if files == [] || p(files[0]) then 0 else 1 + IndexWhere(files[1..], p)
  }

  /** `file` is the first of `files` to satisfy `p`. */
  ghost predicate IsFirst(files: seq<ReleaseFile>, p: ReleaseFile -> bool, file: ReleaseFile) {
    exists k :: 0 <= k < |files| && files[k] == file && p(file) && forall m :: 0 <= m < k ==> !p(files[m])
  }

  ghost predicate NoneOf(files: seq<ReleaseFile>, p: ReleaseFile -> bool) {
    forall f :: f in files ==> !p(f)
  }

  /** preferredFile: the first universal wheel, else the first sdist, else the first file. */
  function PreferredFile(files: seq<ReleaseFile>): (file: ReleaseFile)
    requires files != []
    ensures file in files
    ensures IsFirst(files, IsUniversalWheel, file)
         || (NoneOf(files, IsUniversalWheel) && IsFirst(files, IsSdist, file))
         || (NoneOf(files, IsUniversalWheel) && NoneOf(files, IsSdist) && file == files[0])
  {
    var wheel, sdist := IndexWhere(files, IsUniversalWheel), IndexWhere(files, IsSdist);
    if wheel < |files| then files[wheel] else if sdist < |files| then files[sdist] else files[0]
  }

  /** A universal wheel is preferred to everything, and a source distribution to what is neither. */
  lemma PreferredKind(files: seq<ReleaseFile>, f: ReleaseFile)
    requires f in files
    ensures IsUniversalWheel(f) ==> IsUniversalWheel(PreferredFile(files))
    ensures f.packageType == "sdist" ==>
              IsUniversalWheel(PreferredFile(files)) || PreferredFile(files).packageType == "sdist"
  {
    hide IsUniversalWheel, PreferredFile;
  }

  // ---- What a selection is ----

  function ReleaseOf(releases: map<string, seq<ReleaseFile>>, parse: TimeParser, version: string): Release
    requires version in releases
  {
    Release(version, Latest(parse, releases[version]), Usable(releases[version]))
  }

  ghost predicate NewerVersion(releases: map<string, seq<ReleaseFile>>, parse: TimeParser, a: string, b: string)
    requires a in releases && b in releases
  {
    Newer(ReleaseOf(releases, parse, a), ReleaseOf(releases, parse, b))
  }

  /** The newest `count` usable versions, newest first. */
  ghost predicate TopVersions(releases: map<string, seq<ReleaseFile>>, count: nat, parse: TimeParser, top: seq<string>) {
    && |top| == (if count < |UsableVersions(releases)| then count else |UsableVersions(releases)|)
    && (forall k :: 0 <= k < |top| ==> top[k] in UsableVersions(releases))
    && (forall i, j :: 0 <= i < j < |top| ==> NewerVersion(releases, parse, top[i], top[j]))
    && (forall v, k :: v in UsableVersions(releases) && v !in top && 0 <= k < |top|
          ==> NewerVersion(releases, parse, top[k], v))
  }

  ghost predicate IsSelection(releases: map<string, seq<ReleaseFile>>, count: nat, parse: TimeParser,
                              top: seq<string>, result: seq<ReleaseFile>)
  {
    && TopVersions(releases, count, parse, top)
    && |result| == |top|
    && forall k :: 0 <= k < |top| ==> result[k] == PreferredFile(Usable(releases[top[k]]))
  }

  /** The inner loop of selectReleaseFiles over the files of one version. */
  method Summarise(parse: TimeParser, files: seq<ReleaseFile>) returns (latest: int, usable: seq<ReleaseFile>)
    ensures latest == Latest(parse, files) && usable == Usable(files)
  {
    latest, usable := ZERO_TIME, [];
    for n := 0 to |files|
      invariant latest == Latest(parse, files[..n]) && usable == Usable(files[..n])
    {
      var file := files[n];
      assert files[..n + 1][..n] == files[..n];
      if !file.yanked && file.url != "" {
        var timestamp := parse(file.uploadTime);
        if timestamp != None && timestamp.value > latest {
          latest := timestamp.value;
        }
        usable := usable + [file];
      }
    }
    assert files[..|files|] == files;
  }

  ghost predicate Describes(releases: map<string, seq<ReleaseFile>>, parse: TimeParser, versions: set<string>,
                            available: seq<Release>)
  {
    && (forall i, j :: 0 <= i < j < |available| ==> available[i].version != available[j].version)
    && (forall r :: r in available ==> r.version in versions)
    && (forall r :: r in available ==> r.version in releases && r == ReleaseOf(releases, parse, r.version))
    && (forall v :: v in versions ==> exists r :: r in available && r.version == v)
  }

  /** The releases with a usable file, in an arbitrary order of map iteration. */
  method ListReleases(releases: map<string, seq<ReleaseFile>>, parse: TimeParser) returns (available: seq<Release>)
    ensures |available| == |UsableVersions(releases)|
    ensures Describes(releases, parse, UsableVersions(releases), available)
  {
    hide Usable, Latest, Describes, UsableVersions;
    available := [];
    assert Describes(releases, parse, {}, available) by { DescribesNothing(releases, parse); }
    var todo := releases.Keys;
    ghost var done: set<string> := {};
    assert done == UsableVersions(releases) - todo by { VersionsAreKeys(releases); }
    while todo != {}
      invariant todo <= releases.Keys
      invariant done == UsableVersions(releases) - todo && |available| == |done|
      invariant Describes(releases, parse, done, available)
    {
      var version :| version in todo;
      var latest, usable := Summarise(parse, releases[version]);
      ListedOne(releases, parse, todo, done, available, version);
      if |usable| != 0 {
        available := available + [Release(version, latest, usable)];
        done := done + {version};
      }
      todo := todo - {version};
    }
    assert done == UsableVersions(releases);
  }

  lemma VersionsAreKeys(releases: map<string, seq<ReleaseFile>>)
    ensures UsableVersions(releases) <= releases.Keys
  {}

  lemma VersionsLeft(releases: map<string, seq<ReleaseFile>>, todo: set<string>, version: string)
    requires version in todo && todo <= releases.Keys
    ensures UsableVersions(releases) - (todo - {version})
         == UsableVersions(releases) - todo + (if Usable(releases[version]) != [] then {version} else {})
  {
    hide Usable;
  }

  /** One turn of the loop, with a usable file or without. */
  lemma ListedOne(releases: map<string, seq<ReleaseFile>>, parse: TimeParser, todo: set<string>, done: set<string>,
                  available: seq<Release>, version: string)
    requires version in todo && todo <= releases.Keys
    requires done == UsableVersions(releases) - todo && |available| == |done| && Describes(releases, parse, done, available)
    ensures Usable(releases[version]) == [] ==> done == UsableVersions(releases) - (todo - {version})
    ensures Usable(releases[version]) != [] ==>
              && done + {version} == UsableVersions(releases) - (todo - {version}) && version !in done
              && |available + [ReleaseOf(releases, parse, version)]| == |done + {version}|
              && Describes(releases, parse, done + {version}, available + [ReleaseOf(releases, parse, version)])
  {
    hide Usable, Latest, Describes, UsableVersions;
    VersionsLeft(releases, todo, version);
    DescribesOneMore(releases, parse, done, available, version);
  }

  lemma DescribesNothing(releases: map<string, seq<ReleaseFile>>, parse: TimeParser)
    ensures Describes(releases, parse, {}, [])
  {}

  lemma DescribesOneMore(releases: map<string, seq<ReleaseFile>>, parse: TimeParser, done: set<string>,
                         available: seq<Release>, version: string)
    requires Describes(releases, parse, done, available) && version in releases && version !in done
    ensures Describes(releases, parse, done + {version}, available + [ReleaseOf(releases, parse, version)])
  {
    hide Usable, Latest;
    var r := ReleaseOf(releases, parse, version);
    var more := available + [r];
    assert forall x :: x in more <==> x in available || x == r;
    assert forall i :: 0 <= i < |available| ==> available[i] in available;
    forall v | v in done + {version}
      ensures exists x :: x in more && x.version == v
    {
      if v == version {
        assert r in more;
      } else {
        var x :| x in available && x.version == v;
        assert x in more;
      }
    }
  }

  lemma SortedReleases(releases: map<string, seq<ReleaseFile>>, parse: TimeParser,
                       available: seq<Release>, sorted: seq<Release>)
    requires Describes(releases, parse, UsableVersions(releases), available)
    requires multiset(sorted) == multiset(available) && Sorted(sorted, Newer)
    ensures Describes(releases, parse, UsableVersions(releases), sorted) && |sorted| == |available|
    ensures forall i, j :: 0 <= i < j < |sorted| ==> Newer(sorted[i], sorted[j])
  {
    hide Usable, Latest, CompareStrings;
    RearrangedNoDuplicates(available, sorted);
    SameElements(available, sorted);
    forall i, j | 0 <= i < j < |sorted|
      ensures sorted[i].version != sorted[j].version && Newer(sorted[i], sorted[j])
    {
      assert sorted[i] in available && sorted[j] in available;
      NewerTotal(sorted[i], sorted[j]);
    }
  }

  /** What is cut off is older than what stays. */
  lemma CutOff(releases: map<string, seq<ReleaseFile>>, parse: TimeParser, sorted: seq<Release>, n: nat, v: string, k: nat)
    requires Describes(releases, parse, UsableVersions(releases), sorted) && v in UsableVersions(releases)
    requires forall i, j :: 0 <= i < j < |sorted| ==> Newer(sorted[i], sorted[j])
    requires k < n <= |sorted| && forall q :: 0 <= q < n ==> sorted[q].version != v
    ensures v in releases && sorted[k].version in releases && NewerVersion(releases, parse, sorted[k].version, v)
  {
    hide Usable, Latest, CompareStrings, Newer, UsableVersions;
    var r :| r in sorted && r.version == v;
    var m :| 0 <= m < |sorted| && sorted[m] == r;
    assert Newer(sorted[k], sorted[m]);
  }

  lemma TruncatedReleases(releases: map<string, seq<ReleaseFile>>, parse: TimeParser, count: nat, sorted: seq<Release>,
                          kept: seq<Release>, top: seq<string>)
    requires Describes(releases, parse, UsableVersions(releases), sorted) && |sorted| == |UsableVersions(releases)|
    requires forall i, j :: 0 <= i < j < |sorted| ==> Newer(sorted[i], sorted[j])
    requires kept == if |sorted| > count then sorted[..count] else sorted
    requires |top| == |kept| && forall k :: 0 <= k < |kept| ==> top[k] == kept[k].version
    ensures TopVersions(releases, count, parse, top)
    ensures forall k :: 0 <= k < |kept| ==> top[k] in releases && kept[k].files == Usable(releases[top[k]]) != []
  {
    hide Usable, Latest, CompareStrings, Newer;
    assert forall k :: 0 <= k < |kept| ==> kept[k] == sorted[k] && sorted[k] in sorted && top[k] == sorted[k].version;
    forall v, k | v in UsableVersions(releases) && v !in top && 0 <= k < |top|
      ensures NewerVersion(releases, parse, top[k], v)
    {
      assert forall q :: 0 <= q < |kept| ==> top[q] in top;
      CutOff(releases, parse, sorted, |kept|, v, k);
    }
  }

  /** selectReleaseFiles. */
  method SelectReleaseFiles(releases: map<string, seq<ReleaseFile>>, count: nat, parse: TimeParser)
    returns (result: seq<ReleaseFile>)
    ensures exists top :: IsSelection(releases, count, parse, top, result)
  {
    hide Usable, Latest, PreferredFile, Describes, UsableVersions, TopVersions, Newer, CompareStrings, IsSelection;
    var available := ListReleases(releases, parse);
    NewerStrict();
    var sorted := SortSlice(available, Newer);
    SortedReleases(releases, parse, available, sorted);
    var kept := if |sorted| > count then sorted[..count] else sorted;
    ghost var top := seq(|kept|, k requires 0 <= k < |kept| => kept[k].version);
    TruncatedReleases(releases, parse, count, sorted, kept, top);
    result := [];
    for n := 0 to |kept|
      invariant |result| == n
      invariant forall k :: 0 <= k < n ==> result[k] == PreferredFile(Usable(releases[top[k]]))
    {
      result := result + [PreferredFile(kept[n].files)];
    }
    Selected(releases, count, parse, top, result);
  }

  lemma Selected(releases: map<string, seq<ReleaseFile>>, count: nat, parse: TimeParser, top: seq<string>, result: seq<ReleaseFile>)
    requires TopVersions(releases, count, parse, top) && |result| == |top|
    requires forall k :: 0 <= k < |top| ==> top[k] in releases && Usable(releases[top[k]]) != []
    requires forall k :: 0 <= k < |top| ==> result[k] == PreferredFile(Usable(releases[top[k]]))
    ensures IsSelection(releases, count, parse, top, result)
  {
    hide Usable, PreferredFile, TopVersions;
  }

  // ---- What every selection has in common ----

  /** Only one list of versions qualifies. */
  lemma {:induction false} TopVersionsUnique(releases: map<string, seq<ReleaseFile>>, count: nat, parse: TimeParser,
                                             s: seq<string>, t: seq<string>, n: nat)
    requires TopVersions(releases, count, parse, s) && TopVersions(releases, count, parse, t) && n <= |s|
    ensures |s| == |t| && s[..n] == t[..n]
  {
    hide Usable, Latest, CompareStrings;
    if n > 0 {
      var k := n - 1;
      TopVersionsUnique(releases, count, parse, s, t, k);
      assert forall m :: 0 <= m < k ==> s[m] == s[..k][m] == t[..k][m] == t[m];
      NoNewerKth(releases, count, parse, s, t, k);
      NoNewerKth(releases, count, parse, t, s, k);
      if s[k] != t[k] {
        NewerTotal(ReleaseOf(releases, parse, s[k]), ReleaseOf(releases, parse, t[k]));
      }
    }
  }

  lemma NoNewerKth(releases: map<string, seq<ReleaseFile>>, count: nat, parse: TimeParser,
                   s: seq<string>, t: seq<string>, k: nat)
    requires TopVersions(releases, count, parse, s) && TopVersions(releases, count, parse, t) && k < |s| == |t|
    requires forall m :: 0 <= m < k ==> s[m] == t[m]
    ensures s[k] in releases && t[k] in releases && !NewerVersion(releases, parse, s[k], t[k])
  {
    hide Usable, Latest, CompareStrings, Newer;
    assert s[k] in UsableVersions(releases) && t[k] in UsableVersions(releases);
    NewerStrict();
    if s[k] in t {
      var m :| 0 <= m < |t| && t[m] == s[k];
      assert m >= k by {
        assert forall q :: 0 <= q < k ==> NewerVersion(releases, parse, s[q], s[k]);
      }
      assert m == k || NewerVersion(releases, parse, t[k], s[k]);
    } else {
      assert NewerVersion(releases, parse, t[k], s[k]);
    }
  }

  /** The newest versions by upload time, newest first, and by version string where the times are equal; what is
      left out is neither newer than anything selected nor, at the same time, of a greater version string. */
  lemma NewestFirst(releases: map<string, seq<ReleaseFile>>, count: nat, parse: TimeParser, top: seq<string>)
    requires TopVersions(releases, count, parse, top)
    ensures forall k :: 0 <= k < |top| ==> top[k] in releases
    ensures forall i, j :: 0 <= i < j < |top| ==> Latest(parse, releases[top[i]]) >= Latest(parse, releases[top[j]])
    ensures forall i, j :: 0 <= i < j < |top| && Latest(parse, releases[top[i]]) == Latest(parse, releases[top[j]]) ==>
              CompareStrings(top[i], top[j]) == 1
    ensures forall v, k :: v in UsableVersions(releases) && v !in top && 0 <= k < |top| ==>
              Latest(parse, releases[v]) <= Latest(parse, releases[top[k]])
    ensures forall v, k :: v in UsableVersions(releases) && v !in top && 0 <= k < |top| ==>
              Latest(parse, releases[v]) < Latest(parse, releases[top[k]]) || CompareStrings(v, top[k]) == -1
  {
    hide Usable, Latest, CompareStrings;
    assert forall k :: 0 <= k < |top| ==> top[k] in UsableVersions(releases);
    forall i, j | 0 <= i < j < |top|
      ensures Latest(parse, releases[top[i]]) >= Latest(parse, releases[top[j]])
      ensures Latest(parse, releases[top[i]]) == Latest(parse, releases[top[j]]) ==> CompareStrings(top[i], top[j]) == 1
    {
      assert NewerVersion(releases, parse, top[i], top[j]);
    }
    forall v, k | v in UsableVersions(releases) && v !in top && 0 <= k < |top|
      ensures Latest(parse, releases[v]) <= Latest(parse, releases[top[k]])
      ensures Latest(parse, releases[v]) == Latest(parse, releases[top[k]]) ==> CompareStrings(v, top[k]) == -1
    {
      assert NewerVersion(releases, parse, top[k], v);
      CompareStringsAntisymmetric(top[k], v);
    }
  }

  /** Every iteration order and every sort give the same files. */
  lemma SelectionDeterministic(releases: map<string, seq<ReleaseFile>>, count: nat, parse: TimeParser,
                               s: seq<string>, a: seq<ReleaseFile>, t: seq<string>, b: seq<ReleaseFile>)
    requires IsSelection(releases, count, parse, s, a) && IsSelection(releases, count, parse, t, b)
    ensures a == b
  {
    hide Usable, Latest, PreferredFile;
    TopVersionsUnique(releases, count, parse, s, t, |s|);
    assert s[..|s|] == s && t[..|t|] == t;
  }

  /** A selected file is a usable file of its own version, and as many versions are served as there
      are, up to `count`. */
  lemma SelectionUsable(releases: map<string, seq<ReleaseFile>>, count: nat, parse: TimeParser,
                        top: seq<string>, result: seq<ReleaseFile>)
    requires IsSelection(releases, count, parse, top, result)
    ensures |result| == if count < |UsableVersions(releases)| then count else |UsableVersions(releases)|
    ensures forall k :: 0 <= k < |result| ==>
              !result[k].yanked && result[k].url != "" && top[k] in releases && result[k] in releases[top[k]]
  {
    hide Usable, PreferredFile;
    forall k | 0 <= k < |result|
      ensures IsUsable(result[k]) && top[k] in releases && result[k] in releases[top[k]]
    {
      assert result[k] in Usable(releases[top[k]]);
    }
  }
}
