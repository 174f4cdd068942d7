/** Newest-N selection: selectRecords of internal/apt/handler.go and internal/apk/handler.go, which
    differ only in the comparator and in the name that stands for "any architecture". */
module Selection {
  import opened Orders
  import opened Records
  import opened Sorting
  import ApkVersion
  import DebianVersion

  /** An architecture filter: the wanted architecture ("" for every one) and the name that marks
      architecture-independent packages. */
  datatype Filter = Filter(architecture: string, independent: string) {
    predicate Accepts(r: Record) {
      architecture == "" || r.architecture == architecture || r.architecture == independent
    }
  }

  // ---- Which record represents a version ----

  /** The representative of a version after the records so far, one record at a time. */
  function Chosen(f: Filter, records: seq<Record>, version: string): Option<Record> {
    if records == [] then None else
      var prior := Chosen(f, records[..|records| - 1], version);
      var r := records[|records| - 1];
      if !f.Accepts(r) || r.version != version then prior
      else if prior == None || (prior.value.architecture == f.independent && r.architecture == f.architecture)
      then Some(r) else prior
  }

  /** The first record of a version with exactly this architecture. */
  function FirstOf(records: seq<Record>, version: string, architecture: string): Option<Record> {
    if records == [] then None
    else if records[0].version == version && records[0].architecture == architecture then Some(records[0])
    else FirstOf(records[1..], version, architecture)
  }

  lemma {:induction false} FirstOfAppend(records: seq<Record>, r: Record, version: string, architecture: string)
    ensures FirstOf(records + [r], version, architecture)
         == if FirstOf(records, version, architecture) != None then FirstOf(records, version, architecture)
            else if r.version == version && r.architecture == architecture then Some(r) else None
  {
    if records == [] {
      assert records + [r] == [r] && [r][1..] == [];
    } else {
      assert (records + [r])[1..] == records[1..] + [r];
      FirstOfAppend(records[1..], r, version, architecture);
    }
  }

  /** The last record of a version with exactly this architecture. */
  function LastOf(records: seq<Record>, version: string, architecture: string): Option<Record> {
    if records == [] then None else
      var r := records[|records| - 1];
      if r.version == version && r.architecture == architecture then Some(r)
      else LastOf(records[..|records| - 1], version, architecture)
  }

  /** The first compatible record of a version. */
  function FirstAccepted(f: Filter, records: seq<Record>, version: string): Option<Record> {
    if records == [] then None
    else if f.Accepts(records[0]) && records[0].version == version then Some(records[0])
    else FirstAccepted(f, records[1..], version)
  }

  lemma {:induction false} FirstAcceptedAppend(f: Filter, records: seq<Record>, r: Record, version: string)
    ensures FirstAccepted(f, records + [r], version)
         == if FirstAccepted(f, records, version) != None then FirstAccepted(f, records, version)
            else if f.Accepts(r) && r.version == version then Some(r) else None
  {
    if records == [] {
      assert records + [r] == [r] && [r][1..] == [];
    } else {
      assert (records + [r])[1..] == records[1..] + [r];
      FirstAcceptedAppend(f, records[1..], r, version);
    }
  }

  lemma {:induction false} FirstOfHasArchitecture(records: seq<Record>, version: string, architecture: string)
    ensures FirstOf(records, version, architecture) != None
        ==> FirstOf(records, version, architecture).value.architecture == architecture
  {
    if records != [] {
      FirstOfHasArchitecture(records[1..], version, architecture);
    }
  }

  /** Which record represents a version, whatever the filter: the first compatible one, unless that is
      architecture-independent. Then the first one with exactly the wanted architecture (the empty one, if
      none is wanted) takes its place; and if the wanted one is the independent one, the last. */
  function Representative(f: Filter, records: seq<Record>, version: string): Option<Record> {
    var first, exact := FirstAccepted(f, records, version), FirstOf(records, version, f.architecture);
    if first == None || first.value.architecture != f.independent then first
    else if f.architecture == f.independent then LastOf(records, version, f.architecture)
    else if exact != None then exact
    else first
  }

  lemma {:induction false} ChosenIsRepresentative(f: Filter, records: seq<Record>, version: string)
    ensures Chosen(f, records, version) == Representative(f, records, version)
    ensures Chosen(f, records, version) == None <==> FirstAccepted(f, records, version) == None
  {
    hide FirstAccepted, FirstOf;
    if records == [] {
      assert FirstAccepted(f, records, version) == None by { NothingAccepted(f, version); }
    } else {
      var init, r := records[..|records| - 1], records[|records| - 1];
      assert records == init + [r];
      ChosenIsRepresentative(f, init, version);
      FirstAcceptedAppend(f, init, r, version);
      FirstOfAppend(init, r, version, f.architecture);
      FirstOfHasArchitecture(init, version, f.architecture);
      ExactIsAccepted(f, init, version);
    }
  }

  lemma NothingAccepted(f: Filter, version: string)
    ensures FirstAccepted(f, [], version) == None
  {}

  lemma {:induction false} ExactIsAccepted(f: Filter, records: seq<Record>, version: string)
    ensures FirstOf(records, version, f.architecture) != None ==> FirstAccepted(f, records, version) != None
    ensures LastOf(records, version, f.architecture) != None ==>
              LastOf(records, version, f.architecture).value.architecture == f.architecture
    ensures f.architecture == f.independent && FirstAccepted(f, records, version) != None
            && FirstAccepted(f, records, version).value.architecture == f.independent ==>
              LastOf(records, version, f.architecture) != None
    decreases |records|
  {
    if records != [] {
      var init, r := records[..|records| - 1], records[|records| - 1];
      assert records == init + [r];
      ExactIsAccepted(f, init, version);
      FirstAcceptedAppend(f, init, r, version);
      FirstOfAppend(init, r, version, f.architecture);
    }
  }

  /** The first compatible record is kept exactly when it is not independent, or nothing takes its place. */
  lemma FirstIsKeptIff(f: Filter, records: seq<Record>, version: string)
    requires FirstAccepted(f, records, version) != None
    ensures var first := FirstAccepted(f, records, version);
      Chosen(f, records, version) == first <==>
        || first.value.architecture != f.independent
        || (if f.architecture == f.independent then LastOf(records, version, f.architecture) == first
            else FirstOf(records, version, f.architecture) == None)
  {
    hide Chosen, FirstAccepted, FirstOf, LastOf;
    ChosenIsRepresentative(f, records, version);
    FirstOfHasArchitecture(records, version, f.architecture);
  }

  /** For a named architecture: its first record whenever the version has one, else the first
      architecture-independent one. */
  lemma {:induction false} ChosenIsExactFirst(f: Filter, records: seq<Record>, version: string)
    requires f.architecture != "" && f.architecture != f.independent
    ensures Chosen(f, records, version)
         == if FirstOf(records, version, f.architecture) != None then FirstOf(records, version, f.architecture)
            else FirstOf(records, version, f.independent)
    ensures FirstOf(records, version, f.independent) != None
        ==> FirstOf(records, version, f.independent).value.architecture == f.independent
    ensures FirstOf(records, version, f.architecture) != None
        ==> FirstOf(records, version, f.architecture).value.architecture == f.architecture
  {
    if records != [] {
      var init, r := records[..|records| - 1], records[|records| - 1];
      assert records == init + [r];
      ChosenIsExactFirst(f, init, version);
      FirstOfAppend(init, r, version, f.architecture);
      FirstOfAppend(init, r, version, f.independent);
    }
  }

  /** Asked for the independent architecture itself, the code keeps the last record instead. */
  lemma {:induction false} ChosenIndependentIsLast(f: Filter, records: seq<Record>, k: nat)
    requires f.architecture == f.independent != "" && k < |records|
    requires f.Accepts(records[k])
    requires forall m :: k < m < |records| ==> !(records[m].version == records[k].version && f.Accepts(records[m]))
    ensures Chosen(f, records, records[k].version) == Some(records[k])
  {
    var init := records[..|records| - 1];
    if k < |records| - 1 {
      ChosenIndependentIsLast(f, init, k);
    } else {
      ChosenIsAccepted(f, init, records[k].version);
    }
  }

  lemma {:induction false} ChosenIsAccepted(f: Filter, records: seq<Record>, version: string)
    ensures Chosen(f, records, version) != None <==>
              exists r :: r in records && f.Accepts(r) && r.version == version
    ensures Chosen(f, records, version) != None ==>
              && Chosen(f, records, version).value in records
              && f.Accepts(Chosen(f, records, version).value)
              && Chosen(f, records, version).value.version == version
  {
    if records != [] {
      ChosenIsAccepted(f, records[..|records| - 1], version);
      assert records == records[..|records| - 1] + [records[|records| - 1]];
    }
  }

  /** Which records count: without an architecture every one does, else those of that architecture and the
      independent ones. */
  lemma ChosenIff(f: Filter, records: seq<Record>, version: string)
    ensures f.architecture == "" ==>
              (Chosen(f, records, version) != None <==> exists r :: r in records && r.version == version)
    ensures f.architecture != "" ==>
              (Chosen(f, records, version) != None <==>
                 exists r :: r in records && r.version == version && r.architecture in {f.architecture, f.independent})
  {
    hide Chosen;
    ChosenIsAccepted(f, records, version);
  }

  // ---- What a selection is ----

  /** The versions that have an accepted record. */
  ghost function Versions(f: Filter, records: seq<Record>): set<string> {
    set r | r in records && f.Accepts(r) :: r.version
  }

  ghost predicate Distinct(selected: seq<Record>) {
    forall i, j :: 0 <= i < j < |selected| ==> selected[i].version != selected[j].version
  }

  ghost predicate Descending(cmp: (string, string) -> int, selected: seq<Record>) {
    forall i, j :: 0 <= i <= j < |selected| ==> cmp(selected[i].version, selected[j].version) >= 0
  }

  ghost predicate Holds(selected: seq<Record>, version: string) {
    exists k :: 0 <= k < |selected| && selected[k].version == version
  }

  /** As many of the newest versions as `limit` allows, each by its representative, newest first;
      no version left out is newer than one that is in. */
  ghost predicate Newest(f: Filter, records: seq<Record>, limit: nat, cmp: (string, string) -> int, selected: seq<Record>) {
    && |selected| == (if limit < |Versions(f, records)| then limit else |Versions(f, records)|)
    && (forall k :: 0 <= k < |selected| ==> Chosen(f, records, selected[k].version) == Some(selected[k]))
    && Distinct(selected)
    && Descending(cmp, selected)
    && (forall v, k :: v in Versions(f, records) && !Holds(selected, v) && 0 <= k < |selected|
          ==> cmp(v, selected[k].version) <= 0)
  }

  /** selectRecords: filter, keep one record a version in a map, list the map in any order, sort
      unstably, truncate. */
  method SelectRecords(f: Filter, records: seq<Record>, limit: nat, cmp: (string, string) -> int)
    returns (selected: seq<Record>)
    requires TotalPreorder(cmp)
    ensures Newest(f, records, limit, cmp, selected)
  {
    hide Represents, Newest, Versions, Descending, Distinct, Lists, Holds, Chosen, TotalPreorder, StrictWeakOrder, Sorted;
    var byVersion: map<string, Record> := map[];
    assert Represents(f, records[..0], byVersion) by { RepresentsNothing(f, records); }
    for n := 0 to |records|
      invariant Represents(f, records[..n], byVersion)
    {
      var record := records[n];
      RepresentsNext(f, records, n, byVersion);
      if f.Accepts(record) {
        if record.version !in byVersion
          || (byVersion[record.version].architecture == f.independent && record.architecture == f.architecture) {
          byVersion := byVersion[record.version := record];
        }
      }
    }
    assert records[..|records|] == records;
    assert forall v :: v in byVersion ==> byVersion[v].version == v by { RepresentedByName(f, records, byVersion); }
    var all := ListMap(byVersion);
    var before := (a: Record, b: Record) => cmp(a.version, b.version) > 0;
    BeforeIsStrict(cmp, before);
    var sorted := SortSlice(all, before);
    SortedDescends(cmp, sorted, before);
    SortedListing(f, records, byVersion, all, sorted, cmp);
    selected := if |sorted| > limit then sorted[..limit] else sorted;
    Truncated(f, records, limit, cmp, sorted, selected);
  }

  lemma BeforeIsStrict(cmp: (string, string) -> int, before: (Record, Record) -> bool)
    requires TotalPreorder(cmp)
    requires forall a, b :: before(a, b) <==> cmp(a.version, b.version) > 0
    ensures StrictWeakOrder(before)
  {
    forall a, b, c | before(a, b) && before(b, c)
      ensures before(a, c)
    {
      StrictChain(cmp, a.version, b.version, c.version);
    }
    forall a, b, c | before(a, b)
      ensures before(a, c) || before(c, b)
    {
      if !before(a, c) {
        StrictChain(cmp, c.version, a.version, b.version);
      }
    }
  }

  lemma SortedDescends(cmp: (string, string) -> int, sorted: seq<Record>, before: (Record, Record) -> bool)
    requires TotalPreorder(cmp) && Sorted(sorted, before)
    requires forall a, b :: before(a, b) <==> cmp(a.version, b.version) > 0
    ensures Descending(cmp, sorted)
  {
    forall i, j | 0 <= i <= j < |sorted|
      ensures cmp(sorted[i].version, sorted[j].version) >= 0
    {
      assert cmp(sorted[i].version, sorted[j].version) == -cmp(sorted[j].version, sorted[i].version);
      assert i < j ==> !before(sorted[j], sorted[i]);
    }
  }

  /** The values of a map in an arbitrary iteration order. */
  method ListMap(byVersion: map<string, Record>) returns (all: seq<Record>)
    requires forall v :: v in byVersion ==> byVersion[v].version == v
    ensures |all| == |byVersion.Keys| && Distinct(all) && Lists(byVersion, all)
  {
    all := [];
    var todo := byVersion.Keys;
    while todo != {}
      invariant todo <= byVersion.Keys && |all| + |todo| == |byVersion.Keys|
      invariant Distinct(all)
      invariant forall r :: r in all <==> r.version in byVersion.Keys - todo && byVersion[r.version] == r
    {
      var v :| v in todo;
      all := all + [byVersion[v]];
      todo := todo - {v};
    }
  }

  ghost predicate Represents(f: Filter, records: seq<Record>, byVersion: map<string, Record>) {
    && (forall v :: v in byVersion <==> Chosen(f, records, v) != None)
    && (forall v :: v in byVersion ==> Chosen(f, records, v) == Some(byVersion[v]))
    && (forall v :: v in byVersion ==> byVersion[v].version == v)
  }

  lemma RepresentsNothing(f: Filter, records: seq<Record>)
    ensures Represents(f, records[..0], map[])
  {}

  lemma RepresentedByName(f: Filter, records: seq<Record>, byVersion: map<string, Record>)
    requires Represents(f, records, byVersion)
    ensures forall v :: v in byVersion ==> byVersion[v].version == v
  {}

  /** One turn of the loop. */
  lemma RepresentsNext(f: Filter, records: seq<Record>, n: nat, byVersion: map<string, Record>)
    requires n < |records| && Represents(f, records[..n], byVersion)
    ensures var r := records[n];
      var taken := f.Accepts(r) && (r.version !in byVersion
        || (byVersion[r.version].architecture == f.independent && r.architecture == f.architecture));
      Represents(f, records[..n + 1], if taken then byVersion[r.version := r] else byVersion)
  {
    assert records[..n + 1][..n] == records[..n];
  }

  ghost predicate Lists(byVersion: map<string, Record>, all: seq<Record>) {
    forall r :: r in all <==> r.version in byVersion && byVersion[r.version] == r
  }

  lemma RepresentedVersions(f: Filter, records: seq<Record>, byVersion: map<string, Record>)
    requires Represents(f, records, byVersion)
    ensures byVersion.Keys == Versions(f, records)
  {
    hide Chosen;
    forall v { ChosenIsAccepted(f, records, v); }
  }

  lemma SortedListing(f: Filter, records: seq<Record>, byVersion: map<string, Record>, all: seq<Record>,
                      sorted: seq<Record>, cmp: (string, string) -> int)
    requires Represents(f, records, byVersion) && Lists(byVersion, all)
    requires |all| == |byVersion.Keys| && Distinct(all)
    requires multiset(sorted) == multiset(all)
    ensures |sorted| == |Versions(f, records)| && Distinct(sorted)
    ensures forall r :: r in sorted ==> Chosen(f, records, r.version) == Some(r)
    ensures forall v :: v in Versions(f, records) ==> Holds(sorted, v)
  {
    hide Chosen, Versions;
    RepresentedVersions(f, records, byVersion);
    RearrangedNoDuplicates(all, sorted);
    SameElements(all, sorted);
    forall i, j | 0 <= i < j < |sorted|
      ensures sorted[i].version != sorted[j].version
    {
      assert sorted[i] in all && sorted[j] in all;
    }
    forall v | v in byVersion
      ensures Holds(sorted, v)
    {
      assert byVersion[v] in sorted;
    }
  }

  /** What is cut off is not newer than what stays. */
  lemma CutOff(f: Filter, records: seq<Record>, cmp: (string, string) -> int, sorted: seq<Record>, n: nat, v: string, k: nat)
    requires n <= |sorted| && k < n && Descending(cmp, sorted) && Holds(sorted, v) && !Holds(sorted[..n], v)
    requires cmp(v, sorted[k].version) == -cmp(sorted[k].version, v)
    ensures cmp(v, sorted[..n][k].version) <= 0
  {
    var m :| 0 <= m < |sorted| && sorted[m].version == v;
    assert forall q :: 0 <= q < n ==> sorted[..n][q] == sorted[q];
    assert cmp(sorted[k].version, sorted[m].version) >= 0;
  }

  lemma Truncated(f: Filter, records: seq<Record>, limit: nat, cmp: (string, string) -> int,
                  sorted: seq<Record>, selected: seq<Record>)
    requires |sorted| == |Versions(f, records)|
    requires Distinct(sorted) && Descending(cmp, sorted)
    requires forall r :: r in sorted ==> Chosen(f, records, r.version) == Some(r)
    requires forall v :: v in Versions(f, records) ==> Holds(sorted, v)
    requires TotalPreorder(cmp)
    requires selected == if |sorted| > limit then sorted[..limit] else sorted
    ensures Newest(f, records, limit, cmp, selected)
  {
    hide Chosen, Versions, Holds;
    var n := |selected|;
    assert selected == sorted[..n];
    forall v, k | v in Versions(f, records) && !Holds(selected, v) && 0 <= k < |selected|
      ensures cmp(v, selected[k].version) <= 0
    {
      CutOff(f, records, cmp, sorted, n, v, k);
    }
  }

  // ---- Any two runs agree ----

  ghost function VersionSet(s: seq<Record>): set<string> { set r | r in s :: r.version }

  lemma {:induction false} VersionSetSize(s: seq<Record>)
    requires Distinct(s)
    ensures |VersionSet(s)| == |s|
  {
    if s != [] {
      var init, r := s[..|s| - 1], s[|s| - 1];
      VersionSetSize(init);
      assert s == init + [r];
      assert VersionSet(s) == VersionSet(init) + {r.version};
      assert r.version !in VersionSet(init);
    }
  }

  /** Everything strictly newer than the k-th of a selection is among the k before it. */
  lemma StrictlyNewer(f: Filter, records: seq<Record>, limit: nat, cmp: (string, string) -> int, s: seq<Record>,
                      k: nat, v: string)
    requires TotalPreorder(cmp) && Newest(f, records, limit, cmp, s) && k < |s|
    requires v in Versions(f, records) && cmp(v, s[k].version) > 0
    ensures v in VersionSet(s[..k])
  {
    var m :| 0 <= m < |s| && s[m].version == v;
    assert forall q :: k <= q < |s| ==> cmp(s[k].version, s[q].version) >= 0;
    assert s[m] in s[..k];
  }

  lemma StrictChain(cmp: (string, string) -> int, a: string, b: string, c: string)
    requires TotalPreorder(cmp) && cmp(a, b) >= 0 && cmp(c, b) < 0
    ensures cmp(a, c) > 0
  {
    assert cmp(b, a) <= 0 && cmp(b, c) > 0;
  }

  /** The k-th version of one run is never older than the k-th of another. */
  lemma NotOlder(f: Filter, records: seq<Record>, limit: nat, cmp: (string, string) -> int,
                 s: seq<Record>, t: seq<Record>, k: nat)
    requires TotalPreorder(cmp)
    requires Newest(f, records, limit, cmp, s) && Newest(f, records, limit, cmp, t) && k < |s|
    ensures |s| == |t| && cmp(t[k].version, s[k].version) >= 0
  {
    hide Chosen;
    if cmp(t[k].version, s[k].version) < 0 {
      forall v | v in VersionSet(s[..k + 1])
        ensures v in VersionSet(t[..k])
      {
        var r :| r in s[..k + 1] && r.version == v;
        var m :| 0 <= m <= k && s[m] == r;
        assert cmp(s[m].version, s[k].version) >= 0;
        StrictChain(cmp, v, s[k].version, t[k].version);
        ChosenIsAccepted(f, records, v);
        StrictlyNewer(f, records, limit, cmp, t, k, v);
      }
      VersionSetSize(s[..k + 1]);
      VersionSetSize(t[..k]);
      Cardinality(VersionSet(s[..k + 1]), VersionSet(t[..k]));
      assert false;
    }
  }

  lemma {:induction false} Cardinality<T>(a: set<T>, b: set<T>)
    requires a <= b
    ensures |a| <= |b|
  {
    if a != {} {
      var x :| x in a;
      Cardinality(a - {x}, b - {x});
    }
  }

  /** Whatever the iteration orders and the sorts, two selections have the same length and tie
      position by position. */
  lemma SelectionsAgree(f: Filter, records: seq<Record>, limit: nat, cmp: (string, string) -> int,
                        s: seq<Record>, t: seq<Record>)
    requires TotalPreorder(cmp)
    requires Newest(f, records, limit, cmp, s) && Newest(f, records, limit, cmp, t)
    ensures |s| == |t|
    ensures forall k :: 0 <= k < |s| ==> cmp(s[k].version, t[k].version) == 0
  {
    forall k | 0 <= k < |s|
      ensures cmp(s[k].version, t[k].version) == 0
    {
      NotOlder(f, records, limit, cmp, s, t, k);
      NotOlder(f, records, limit, cmp, t, s, k);
    }
  }

  // ---- When there is only one selection ----

  /** No selected version ties with another compatible one. */
  ghost predicate NoTies(f: Filter, records: seq<Record>, cmp: (string, string) -> int, s: seq<Record>) {
    forall k, v :: 0 <= k < |s| && v in Versions(f, records) && cmp(s[k].version, v) == 0 ==> v == s[k].version
  }

  /** Then it is the only selection; ties among what is left out do not matter. */
  lemma NoTiesSameSelection(f: Filter, records: seq<Record>, limit: nat, cmp: (string, string) -> int,
                            s: seq<Record>, t: seq<Record>)
    requires TotalPreorder(cmp)
    requires Newest(f, records, limit, cmp, s) && Newest(f, records, limit, cmp, t)
    requires NoTies(f, records, cmp, s)
    ensures s == t
  {
    hide Chosen;
    SelectionsAgree(f, records, limit, cmp, s, t);
    forall k | 0 <= k < |s|
      ensures s[k] == t[k]
    {
      ChosenIsAccepted(f, records, t[k].version);
      assert t[k].version in Versions(f, records);
    }
  }

  lemma TiesAlike(cmp: (string, string) -> int, a: string, b: string, c: string)
    requires TotalPreorder(cmp) && cmp(a, b) == 0
    ensures cmp(a, c) == cmp(b, c) && cmp(c, a) == cmp(c, b) && cmp(b, a) == 0
  {
    assert cmp(b, a) == 0 && cmp(c, a) == -cmp(a, c) && cmp(c, b) == -cmp(b, c);
    assert cmp(a, c) <= 0 ==> cmp(b, c) <= 0;
    assert cmp(b, c) <= 0 ==> cmp(a, c) <= 0;
    assert cmp(c, a) <= 0 ==> cmp(c, b) <= 0;
    assert cmp(c, b) <= 0 ==> cmp(c, a) <= 0;
  }

  /** A record of a version that ties can stand in the place of a selected one. */
  lemma Descends(cmp: (string, string) -> int, s: seq<Record>, k: nat, r: Record)
    requires TotalPreorder(cmp) && Descending(cmp, s) && k < |s| && cmp(s[k].version, r.version) == 0
    ensures Descending(cmp, s[k := r])
  {
    var t := s[k := r];
    forall i, j | 0 <= i <= j < |t|
      ensures cmp(t[i].version, t[j].version) >= 0
    {
      TiesAlike(cmp, s[k].version, r.version, s[i].version);
      TiesAlike(cmp, s[k].version, r.version, s[j].version);
      TiesAlike(cmp, s[k].version, r.version, r.version);
    }
  }

  /** Two selected versions that tie can change places. */
  lemma Swapped(f: Filter, records: seq<Record>, limit: nat, cmp: (string, string) -> int, s: seq<Record>, k: nat, m: nat)
    requires TotalPreorder(cmp) && Newest(f, records, limit, cmp, s)
    requires k < |s| && m < |s| && cmp(s[k].version, s[m].version) == 0
    ensures Newest(f, records, limit, cmp, s[k := s[m]][m := s[k]])
  {
    hide Chosen, Versions;
    var t := s[k := s[m]][m := s[k]];
    Descends(cmp, s, k, s[m]);
    TiesAlike(cmp, s[k].version, s[m].version, s[k].version);
    Descends(cmp, s[k := s[m]], m, s[k]);
    forall v, q | v in Versions(f, records) && !Holds(t, v) && 0 <= q < |t|
      ensures cmp(v, t[q].version) <= 0
    {
      if Holds(s, v) {
        SameHolds(s, k, m, v);
      }
      var p := if q == k then m else if q == m then k else q;
      assert t[q] == s[p];
    }
  }

  lemma SameHolds(s: seq<Record>, k: nat, m: nat, v: string)
    requires k < |s| && m < |s| && Holds(s, v)
    ensures Holds(s[k := s[m]][m := s[k]], v)
  {
    var q :| 0 <= q < |s| && s[q].version == v;
    var p := if q == k then m else if q == m then k else q;
    assert s[k := s[m]][m := s[k]][p].version == v;
  }

  /** A version left out that ties with a selected one can take its place. */
  lemma Substituted(f: Filter, records: seq<Record>, limit: nat, cmp: (string, string) -> int, s: seq<Record>, k: nat,
                    r: Record)
    requires TotalPreorder(cmp) && Newest(f, records, limit, cmp, s)
    requires k < |s| && r.version in Versions(f, records) && !Holds(s, r.version) && cmp(s[k].version, r.version) == 0
    requires Chosen(f, records, r.version) == Some(r)
    ensures Newest(f, records, limit, cmp, s[k := r])
  {
    hide Chosen, Versions;
    var t := s[k := r];
    Descends(cmp, s, k, r);
    forall v, q | v in Versions(f, records) && !Holds(t, v) && 0 <= q < |t|
      ensures cmp(v, t[q].version) <= 0
    {
      if Holds(s, v) && v != s[k].version {
        OthersStay(s, k, r, v);
      }
      TiesAlike(cmp, s[k].version, r.version, v);
      TiesAlike(cmp, s[k].version, r.version, s[q].version);
      assert cmp(r.version, s[q].version) <= 0;
    }
  }

  lemma OthersStay(s: seq<Record>, k: nat, r: Record, v: string)
    requires k < |s| && Holds(s, v) && v != s[k].version
    ensures Holds(s[k := r], v)
  {
    var q :| 0 <= q < |s| && s[q].version == v;
    assert s[k := r][q].version == v;
  }

  /** A selected version that ties with another compatible one leaves a choice. */
  lemma TieLeavesChoice(f: Filter, records: seq<Record>, limit: nat, cmp: (string, string) -> int, s: seq<Record>,
                        k: nat, v: string) returns (t: seq<Record>)
    requires TotalPreorder(cmp) && Newest(f, records, limit, cmp, s)
    requires k < |s| && v in Versions(f, records) && cmp(s[k].version, v) == 0 && v != s[k].version
    ensures Newest(f, records, limit, cmp, t) && t != s
  {
    hide Chosen, Newest;
    if Holds(s, v) {
      var m :| 0 <= m < |s| && s[m].version == v;
      Swapped(f, records, limit, cmp, s, k, m);
      t := s[k := s[m]][m := s[k]];
      assert t[m] == s[k];
    } else {
      ChosenIsAccepted(f, records, v);
      var r := Chosen(f, records, v).value;
      Substituted(f, records, limit, cmp, s, k, r);
      t := s[k := r];
      assert t[k] == r;
    }
  }

  /** A selection is the only one exactly when no selected version ties with another compatible one. */
  lemma OnlySelectionIff(f: Filter, records: seq<Record>, limit: nat, cmp: (string, string) -> int, s: seq<Record>)
    requires TotalPreorder(cmp) && Newest(f, records, limit, cmp, s)
    ensures (forall t :: Newest(f, records, limit, cmp, t) ==> t == s) <==> NoTies(f, records, cmp, s)
  {
    hide Chosen, Newest, Versions, TotalPreorder;
    if NoTies(f, records, cmp, s) {
      forall t | Newest(f, records, limit, cmp, t)
        ensures t == s
      {
        NoTiesSameSelection(f, records, limit, cmp, s, t);
      }
    } else {
      var k, v :| 0 <= k < |s| && v in Versions(f, records) && cmp(s[k].version, v) == 0 && v != s[k].version;
      var t := TieLeavesChoice(f, records, limit, cmp, s, k, v);
    }
  }

  // ---- When the first record is not kept ----

  /** A version in an independent and in an empty architecture: without a filter the second record is kept.
      In two independent records, when these are asked for: again the second. */
  lemma FirstIsNotKept(a: Record, b: Record)
    requires a.version == b.version && a.architecture == "all"
    ensures b.architecture == "" ==>
              Chosen(Filter("", "all"), [a, b], a.version) == Some(b) && FirstAccepted(Filter("", "all"), [a, b], a.version) == Some(a)
    ensures b.architecture == "all" ==>
              Chosen(Filter("all", "all"), [a, b], a.version) == Some(b)
              && FirstAccepted(Filter("all", "all"), [a, b], a.version) == Some(a)
  {
    ChosenOfTwo(Filter("", "all"), a, b);
    ChosenOfTwo(Filter("all", "all"), a, b);
  }

  lemma ChosenOfTwo(f: Filter, a: Record, b: Record)
    requires a.version == b.version && f.Accepts(a)
    ensures FirstAccepted(f, [a, b], a.version) == Some(a)
    ensures Chosen(f, [a, b], a.version)
         == Some(if f.Accepts(b) && a.architecture == f.independent && b.architecture == f.architecture then b else a)
  {
    assert [a, b][..1] == [a];
    assert Chosen(f, [], a.version) == None;
    assert Chosen(f, [a], a.version) == Some(a);
  }

  // ---- The two instances ----

  /** selectRecords of internal/apt/handler.go. */
  method SelectAptRecords(records: seq<Record>, architecture: string, limit: nat) returns (selected: seq<Record>)
    ensures Newest(Filter(architecture, "all"), records, limit, DebianVersion.Compare, selected)
  {
    DebianVersion.CompareTotalPreorder();
    selected := SelectRecords(Filter(architecture, "all"), records, limit, DebianVersion.Compare);
  }

  /** selectRecords of internal/apk/handler.go. */
  method SelectApkRecords(records: seq<Record>, architecture: string, limit: nat) returns (selected: seq<Record>)
    ensures Newest(Filter(architecture, "noarch"), records, limit, ApkVersion.Compare, selected)
  {
    ApkVersion.CompareTotalPreorder();
    selected := SelectRecords(Filter(architecture, "noarch"), records, limit, ApkVersion.Compare);
  }
}
