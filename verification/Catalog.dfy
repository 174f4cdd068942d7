/** The package catalog of internal/store/store.go: a table keyed by upstream and artifact path,
    replaced index by index. The APT and APK tables have the same shape and the same operations. */
module Catalog {
  import opened Records

  datatype Key = Key(upstream: string, path: string)

  datatype Row = Row(package: string, version: string, architecture: string, index: string, updatedAt: int)

  type Table = map<Key, Row>

  // ---- The statements of a replacement ----

  predicate Owned(t: Table, key: Key, upstream: string, index: string) {
    key in t && key.upstream == upstream && t[key].index == index
  }

  /** DELETE: the rows the index owns. */
  function Cleared(t: Table, upstream: string, index: string): Table {
    map key | key in t && !Owned(t, key, upstream, index) :: t[key]
  }

  function RowOf(r: Record, index: string, now: int): Row { Row(r.package, r.version, r.architecture, index, now) }

  /** INSERT ... ON CONFLICT DO UPDATE, record by record. */
  function Inserted(t: Table, upstream: string, index: string, records: seq<Record>, now: int): Table {
    if records == [] then t else
      var r := records[|records| - 1];
      Inserted(t, upstream, index, records[..|records| - 1], now)[Key(upstream, r.artifactPath) := RowOf(r, index, now)]
  }

  function Replaced(t: Table, upstream: string, index: string, records: seq<Record>, now: int): Table {
    Inserted(Cleared(t, upstream, index), upstream, index, records, now)
  }

  // ---- Lookups ----

  function RecordAt(t: Table, key: Key): Record
    requires key in t
  {
    Record(key.path, t[key].package, t[key].version, t[key].architecture)
  }

  function ByPath(t: Table, upstream: string, path: string): Option<Record> {
    if Key(upstream, path) in t then Some(RecordAt(t, Key(upstream, path))) else None
  }

  ghost function ByPackage(t: Table, upstream: string, package: string): set<Record> {
    set key | key in t && key.upstream == upstream && t[key].package == package :: RecordAt(t, key)
  }

  class Store {
    var catalog: Table

    /** ReplaceAPTCatalog and ReplaceAPKCatalog: one transaction. `fault` is the statement at which
        the database fails, if any: begin, delete, prepare, each insert, commit, in that order. */
    method Replace(upstream: string, index: string, records: seq<Record>, now: int, fault: Option<nat>) returns (ok: bool)
      modifies this
      ensures ok <==> fault == None || fault.value > 3 + |records|
      ensures catalog == if ok then Replaced(old(catalog), upstream, index, records, now) else old(catalog)
    {
      if fault == Some(0) { return false; }
      var tx := catalog;
      if fault == Some(1) { return false; }
      tx := Cleared(tx, upstream, index);
      if fault == Some(2) { return false; }
      var n := 0;
      while n < |records|
        invariant n <= |records| && (fault == None || fault.value >= 3 + n)
        invariant tx == Inserted(Cleared(catalog, upstream, index), upstream, index, records[..n], now)
      {
        if fault == Some(3 + n) { return false; }
        var record := records[n];
        assert records[..n + 1][..n] == records[..n];
        tx := tx[Key(upstream, record.artifactPath) := RowOf(record, index, now)];
        n := n + 1;
      }
      assert records[..n] == records;
      if fault == Some(3 + n) { return false; }
      catalog := tx;
      return true;
    }

    /** APTRecords and APKRecords: the rows of one package, in no particular order. */
    method RecordsOf(upstream: string, package: string) returns (records: seq<Record>)
      ensures forall r :: r in records <==> r in ByPackage(catalog, upstream, package)
      ensures forall i, j :: 0 <= i < j < |records| ==> records[i].artifactPath != records[j].artifactPath
    {
      records := [];
      var todo := catalog.Keys;
      while todo != {}
        invariant todo <= catalog.Keys
        invariant forall r :: r in records <==>
                    exists key :: key in catalog && key !in todo && key.upstream == upstream
                               && catalog[key].package == package && r == RecordAt(catalog, key)
        invariant forall r :: r in records ==> Key(upstream, r.artifactPath) !in todo
        invariant forall i, j :: 0 <= i < j < |records| ==> records[i].artifactPath != records[j].artifactPath
      {
        var key :| key in todo;
        todo := todo - {key};
        if key.upstream == upstream && catalog[key].package == package {
          records := records + [RecordAt(catalog, key)];
        }
      }
    }

    /** APTRecordForArtifact and APKRecordForArtifact. */
    method RecordForArtifact(upstream: string, path: string) returns (record: Option<Record>)
      ensures record == ByPath(catalog, upstream, path)
    {
      if Key(upstream, path) !in catalog {
        return None;
      }
      var row := catalog[Key(upstream, path)];
      return Some(Record(path, row.package, row.version, row.architecture));
    }
  }

  /** The two lookups never disagree about a record. */
  lemma LookupsAgree(t: Table, upstream: string, r: Record, package: string)
    ensures r in ByPackage(t, upstream, package) <==> ByPath(t, upstream, r.artifactPath) == Some(r) && r.package == package
  {
    if ByPath(t, upstream, r.artifactPath) == Some(r) && r.package == package {
      assert RecordAt(t, Key(upstream, r.artifactPath)) == r;
    }
  }

  // ---- What a replacement leaves ----

  /** The last record for a path. */
  function LastRecord(records: seq<Record>, path: string): Option<Record> {
    if records == [] then None
    else if records[|records| - 1].artifactPath == path then Some(records[|records| - 1])
    else LastRecord(records[..|records| - 1], path)
  }

  lemma {:induction false} InsertedRow(t: Table, upstream: string, index: string, records: seq<Record>, now: int, key: Key)
    ensures var t' := Inserted(t, upstream, index, records, now);
      var last := LastRecord(records, key.path);
      if key.upstream == upstream && last != None then key in t' && t'[key] == RowOf(last.value, index, now)
      else (key in t' <==> key in t) && (key in t ==> t'[key] == t[key])
  {
    if records != [] {
      InsertedRow(t, upstream, index, records[..|records| - 1], now, key);
    }
  }

  /** Every row after a replacement: a path named in the records has its last record, owned by the
      index; any other row stays unless the index owned it. */
  lemma ReplacedRow(t: Table, upstream: string, index: string, records: seq<Record>, now: int, key: Key)
    ensures var t' := Replaced(t, upstream, index, records, now);
      var last := LastRecord(records, key.path);
      if key.upstream == upstream && last != None then key in t' && t'[key] == RowOf(last.value, index, now)
      else (key in t' <==> key in t && !Owned(t, key, upstream, index)) && (key in t' ==> t'[key] == t[key])
  {
    InsertedRow(Cleared(t, upstream, index), upstream, index, records, now, key);
  }

  /** The rows the index then owns are exactly the last-wins map of the records by path. */
  lemma OwnedRows(t: Table, upstream: string, index: string, records: seq<Record>, now: int, key: Key)
    ensures Owned(Replaced(t, upstream, index, records, now), key, upstream, index)
       <==> (key.upstream == upstream && LastRecord(records, key.path) != None)
    ensures key.upstream == upstream ==>
              LastRecord(records, key.path) != None ==>
                ByPath(Replaced(t, upstream, index, records, now), upstream, key.path) == LastRecord(records, key.path)
  {
    ReplacedRow(t, upstream, index, records, now, key);
    LastRecordHasPath(records, key.path);
  }

  lemma {:induction false} LastRecordHasPath(records: seq<Record>, path: string)
    ensures LastRecord(records, path) != None ==> LastRecord(records, path).value.artifactPath == path
    ensures LastRecord(records, path) != None <==> exists r :: r in records && r.artifactPath == path
  {
    if records != [] {
      LastRecordHasPath(records[..|records| - 1], path);
      assert records == records[..|records| - 1] + [records[|records| - 1]];
    }
  }

  /** Other upstreams keep every row; other indexes of this upstream lose only named paths. */
  lemma OtherRows(t: Table, upstream: string, index: string, records: seq<Record>, now: int, key: Key)
    requires key in t && !Owned(t, key, upstream, index)
    requires key.upstream != upstream || forall r :: r in records ==> r.artifactPath != key.path
    ensures key in Replaced(t, upstream, index, records, now)
    ensures Replaced(t, upstream, index, records, now)[key] == t[key]
  {
    ReplacedRow(t, upstream, index, records, now, key);
    LastRecordHasPath(records, key.path);
  }

  /** Replacing an index twice is replacing it once, at the later time. */
  lemma ReplaceIdempotent(t: Table, upstream: string, index: string, records: seq<Record>, first: int, second: int)
    ensures Replaced(Replaced(t, upstream, index, records, first), upstream, index, records, second)
         == Replaced(t, upstream, index, records, second)
  {
    var once := Replaced(t, upstream, index, records, first);
    var twice, later := Replaced(once, upstream, index, records, second), Replaced(t, upstream, index, records, second);
    forall key: Key
      ensures key in twice <==> key in later
      ensures key in twice ==> twice[key] == later[key]
    {
      ReplacedRow(t, upstream, index, records, first, key);
      ReplacedRow(once, upstream, index, records, second, key);
      ReplacedRow(t, upstream, index, records, second, key);
    }
  }

  /** Replacements for different upstreams commute. */
  lemma ReplaceCommutes(t: Table, u: string, i: string, rs: seq<Record>, m: int, v: string, j: string, ss: seq<Record>, n: int)
    requires u != v
    ensures Replaced(Replaced(t, u, i, rs, m), v, j, ss, n) == Replaced(Replaced(t, v, j, ss, n), u, i, rs, m)
  {
    var a, b := Replaced(t, u, i, rs, m), Replaced(t, v, j, ss, n);
    var ab, ba := Replaced(a, v, j, ss, n), Replaced(b, u, i, rs, m);
    forall key: Key
      ensures key in ab <==> key in ba
      ensures key in ab ==> ab[key] == ba[key]
    {
      ReplacedRow(t, u, i, rs, m, key);
      ReplacedRow(a, v, j, ss, n, key);
      ReplacedRow(t, v, j, ss, n, key);
      ReplacedRow(b, u, i, rs, m, key);
    }
  }

  // ---- Whole runs ----

  datatype Update = Update(upstream: string, index: string, records: seq<Record>, now: int)

  /** The catalog after a run of successful replacements on an empty one. */
  function After(run: seq<Update>): Table {
    if run == [] then map[] else
      var u := run[|run| - 1];
      Replaced(After(run[..|run| - 1]), u.upstream, u.index, u.records, u.now)
  }

  predicate Mentions(u: Update, key: Key) { u.upstream == key.upstream && LastRecord(u.records, key.path) != None }

  /** The last update to mention the path, or -1. */
  function LastMention(run: seq<Update>, key: Key): (k: int)
    ensures -1 <= k < |run|
    ensures k >= 0 ==> Mentions(run[k], key)
    ensures forall m :: k < m < |run| ==> !Mentions(run[m], key)
  {
    if run == [] then -1
    else if Mentions(run[|run| - 1], key) then |run| - 1
    else LastMention(run[..|run| - 1], key)
  }

  /** Whether a later update of the same index dropped what update k recorded. */
  predicate Dropped(run: seq<Update>, k: nat)
    requires k < |run|
  {
    exists m :: k < m < |run| && run[m].upstream == run[k].upstream && run[m].index == run[k].index
  }

  /** A path is in the catalog exactly when the index that mentioned it last has not been replaced
      since, and then it has that mention's last record: the catalog is not the union of the latest
      indexes. */
  lemma {:induction false} RunOwner(run: seq<Update>, key: Key)
    ensures var k := LastMention(run, key);
      && (key in After(run) <==> k >= 0 && !Dropped(run, k))
      && (key in After(run) ==>
            After(run)[key] == RowOf(LastRecord(run[k].records, key.path).value, run[k].index, run[k].now))
  {
    if run != [] {
      var init, u := run[..|run| - 1], run[|run| - 1];
      RunOwner(init, key);
      ReplacedRow(After(init), u.upstream, u.index, u.records, u.now, key);
      var k := LastMention(run, key);
      if k >= 0 && k < |init| {
        assert k == LastMention(init, key) && init[k] == run[k];
        assert Dropped(run, k) <==> Dropped(init, k) || (u.upstream == run[k].upstream && u.index == run[k].index) by {
          if Dropped(init, k) {
            var m :| k < m < |init| && init[m].upstream == init[k].upstream && init[m].index == init[k].index;
            assert run[m] == init[m];
          }
          assert run[|init|] == u;
          assert forall m :: k < m < |init| ==> run[m] == init[m];
        }
      }
    }
  }

  /** Three updates: one index lists a path, a second one lists it, the second one drops it. The path is gone,
      although the latest index of the first lists it. */
  lemma NotTheUnion(r: Record)
    ensures var run := [Update("u", "first", [r], 1), Update("u", "second", [r], 2), Update("u", "second", [], 3)];
      Key("u", r.artifactPath) !in After(run)
      && Mentions(run[0], Key("u", r.artifactPath)) && !Dropped(run, 0)
  {
    var run := [Update("u", "first", [r], 1), Update("u", "second", [r], 2), Update("u", "second", [], 3)];
    var key := Key("u", r.artifactPath);
    RunOwner(run, key);
    assert LastRecord([r], key.path) == Some(r) && LastRecord([], key.path) == None;
    assert Mentions(run[0], key) && Mentions(run[1], key) && !Mentions(run[2], key);
    assert LastMention(run, key) == 1;
    assert run[2].upstream == run[1].upstream && run[2].index == run[1].index;
    assert Dropped(run, 1);
  }
}
