/** Lifecycle cleanup: Cleanup and removeCandidate of internal/cache/cache.go over the artifact table of
    internal/store/store.go. */
module Eviction {
  import opened Sorting

  datatype Row = Row(filename: string, size: nat, tracked: bool, lastAccess: int)

  type Rows = map<string, Row>

  datatype Candidate = Candidate(key: string, filename: string, size: nat)

  datatype CleanupResult = CleanupResult(removed: nat, released: int, skipped: nat)

  /** What a cleanup meets and does not change: the keys with an active session, the files that cannot
      be removed, and the keys whose watch or artifact row cannot be deleted. */
  datatype Env = Env(active: set<string>, stuck: set<string>, watchFaults: set<string>, rowFaults: set<string>)

  datatype Ledger = Ledger(rows: Rows, files: set<string>, watches: set<string>, result: CleanupResult)

  // ---- Removing one candidate ----

  predicate Removable(e: Env, files: set<string>, key: string, filename: string) {
    && key !in e.active
    && !(filename in files && filename in e.stuck)
    && key !in e.watchFaults && key !in e.rowFaults
  }

  /** removeCandidate, as a function of the ledger: an active session is skipped; then the file goes,
      then the watch, then the row, each step only if the one before succeeded. */
  function Remove(e: Env, l: Ledger, c: Candidate): Ledger {
    if c.key in e.active then l.(result := l.result.(skipped := l.result.skipped + 1))
    else if c.filename in l.files && c.filename in e.stuck then l
    else if c.key in e.watchFaults then l.(files := l.files - {c.filename})
    else if c.key in e.rowFaults then l.(files := l.files - {c.filename}, watches := l.watches - {c.key})
    else Ledger(l.rows - {c.key}, l.files - {c.filename}, l.watches - {c.key},
                l.result.(removed := l.result.removed + 1, released := l.result.released + c.size))
  }

  function RemoveAll(e: Env, l: Ledger, cs: seq<Candidate>): Ledger
    decreases |cs|
  {
    if cs == [] then l else RemoveAll(e, Remove(e, l, cs[0]), cs[1..])
  }

  /** The capacity phase: candidates in order, until the running total is at most `max`. */
  function Evict(e: Env, l: Ledger, total: int, max: int, cs: seq<Candidate>): Ledger
    decreases |cs|
  {
    if cs == [] || total <= max then l
    else Evict(e, Remove(e, l, cs[0]),
               if Removable(e, l.files, cs[0].key, cs[0].filename) then total - cs[0].size else total, max, cs[1..])
  }

  // ---- Sums over the table ----

  ghost function TotalSize(rows: Rows): nat {
    if rows == map[] then 0 else
      var key :| key in rows;
      rows[key].size + TotalSize(rows - {key})
  }

  lemma {:induction false} TotalSizeWithout(rows: Rows, key: string)
    requires key in rows
    ensures TotalSize(rows) == rows[key].size + TotalSize(rows - {key})
    decreases |rows|
  {
    var k :| k in rows && TotalSize(rows) == rows[k].size + TotalSize(rows - {k});
    if k != key {
      TotalSizeWithout(rows - {k}, key);
      TotalSizeWithout(rows - {key}, k);
      assert rows - {k} - {key} == rows - {key} - {k};
    }
  }

  // ---- Listings: the queries of the store ----

  ghost predicate Describes(rows: Rows, c: Candidate) {
    c.key in rows && c.filename == rows[c.key].filename && c.size == rows[c.key].size
  }

  ghost function KeysOf(cs: seq<Candidate>): set<string> { set c | c in cs :: c.key }

  ghost predicate Lists(rows: Rows, cs: seq<Candidate>) {
    && (forall c :: c in cs ==> Describes(rows, c))
    && (forall i, j :: 0 <= i < j < |cs| ==> cs[i].key != cs[j].key)
  }

  function Access(rows: Rows, key: string): int { if key in rows then rows[key].lastAccess else 0 }

  /** Every row the query asks for, least recently used first, ties in any order. */
  ghost predicate IsListing(rows: Rows, wanted: set<string>, cs: seq<Candidate>) {
    && Lists(rows, cs) && KeysOf(cs) == wanted
    && (forall i, j :: 0 <= i < j < |cs| ==> Access(rows, cs[i].key) <= Access(rows, cs[j].key))
  }

  predicate Inactive(row: Row, cutoff: int) { row.tracked && row.lastAccess < cutoff }

  function InactiveKeys(rows: Rows, cutoff: int): set<string> {
    set key | key in rows && Inactive(rows[key], cutoff)
  }

  // ---- The cleanup itself ----

  class Manager {
    var rows: Rows
    var files: set<string>
    var watches: set<string>

    ghost function View(result: CleanupResult): Ledger
      reads this
    {
      Ledger(rows, files, watches, result)
    }

    /** removeCandidate. */
    method RemoveCandidate(e: Env, c: Candidate, result0: CleanupResult) returns (removed: bool, result: CleanupResult)
      modifies this
      ensures View(result) == Remove(e, old(View(result0)), c)
      ensures removed == Removable(e, old(files), c.key, c.filename)
    {
      result := result0;
      if c.key in e.active {
        result := result.(skipped := result.skipped + 1);
        return false, result;
      }
      if c.filename in files {
        if c.filename in e.stuck {
          return false, result;
        }
      }
      files := files - {c.filename};
      if c.key in e.watchFaults {
        return false, result;
      }
      watches := watches - {c.key};
      if c.key in e.rowFaults {
        return false, result;
      }
      rows := rows - {c.key};
      result := result.(removed := result.removed + 1, released := result.released + c.size);
      return true, result;
    }

    /** InactiveTracked and LeastRecentlyUsed: the rows with a wanted key, in order of last access. */
    method Query(wanted: set<string>) returns (cs: seq<Candidate>)
      requires wanted <= rows.Keys
      ensures IsListing(rows, wanted, cs)
    {
      var all: seq<Candidate> := [];
      var todo := wanted;
      while todo != {}
        invariant todo <= wanted
        invariant Lists(rows, all) && KeysOf(all) == wanted - todo
      {
        var key :| key in todo;
        ListsOneMore(rows, all, key);
        all := all + [Candidate(key, rows[key].filename, rows[key].size)];
        todo := todo - {key};
      }
      var snapshot := rows;
      cs := SortSlice(all, (a: Candidate, b: Candidate) => Access(snapshot, a.key) < Access(snapshot, b.key));
      RearrangedNoDuplicates(all, cs);
      SameElements(all, cs);
      ListsRearranged(rows, all, cs);
    }

    /** SELECT SUM(size_bytes). */
    method SumSizes() returns (total: nat)
      ensures total == TotalSize(rows)
    {
      total := 0;
      var left := rows;
      while left != map[]
        invariant left.Keys <= rows.Keys && total + TotalSize(left) == TotalSize(rows)
        decreases |left|
      {
        var key :| key in left;
        TotalSizeWithout(left, key);
        total := total + left[key].size;
        left := left - {key};
      }
    }

    /** Cleanup. `fault` is the store query that fails, if any. */
    method Cleanup(e: Env, cutoff: int, max: int, fault: QueryFault)
      returns (ok: bool, result: CleanupResult, ghost inactive: seq<Candidate>, ghost lru: seq<Candidate>)
      modifies this
      ensures CleanedUp(e, old(View(NOTHING)), cutoff, max, fault, ok, View(result), inactive, lru)
    {
      hide RemoveAll, Evict, Remove, IsListing;
      result, inactive, lru := NOTHING, [], [];
      if fault == OnInactive {
        return false, result, inactive, lru;
      }
      var expired := Query(InactiveKeys(rows, cutoff));
      inactive := expired;
      ghost var before := View(result);
      assert expired[0..] == expired;
      for n := 0 to |expired|
        invariant RemoveAll(e, View(result), expired[n..]) == RemoveAll(e, before, expired)
      {
        RemoveAllUnfold(e, View(result), expired[n..]);
        assert expired[n..][1..] == expired[n + 1..];
        var _, result' := RemoveCandidate(e, expired[n], result);
        result := result';
      }
      RemoveAllUnfold(e, View(result), expired[|expired|..]);
      ghost var middle := View(result);
      if fault == OnTotal {
        return false, result, inactive, lru;
      }
      var total: int := SumSizes();
      if total <= max {
        return true, result, inactive, lru;
      }
      if fault == OnLru {
        return false, result, inactive, lru;
      }
      var candidates := Query(rows.Keys);
      lru := candidates;
      var n := 0;
      assert candidates[0..] == candidates;
      while n < |candidates| && total > max
        invariant n <= |candidates|
        invariant Evict(e, View(result), total, max, candidates[n..]) == Evict(e, middle, TotalSize(middle.rows), max, candidates)
      {
        EvictUnfold(e, View(result), total, max, candidates[n..]);
        assert candidates[n..][1..] == candidates[n + 1..];
        var removed, result' := RemoveCandidate(e, candidates[n], result);
        if removed {
          total := total - candidates[n].size;
        }
        result := result';
        n := n + 1;
      }
      EvictUnfold(e, View(result), total, max, candidates[n..]);
      return true, result, inactive, lru;
    }
  }

  lemma RemoveAllUnfold(e: Env, l: Ledger, cs: seq<Candidate>)
    ensures RemoveAll(e, l, cs) == if cs == [] then l else RemoveAll(e, Remove(e, l, cs[0]), cs[1..])
  {}

  lemma EvictUnfold(e: Env, l: Ledger, total: int, max: int, cs: seq<Candidate>)
    ensures Evict(e, l, total, max, cs)
         == if cs == [] || total <= max then l
            else Evict(e, Remove(e, l, cs[0]),
                       if Removable(e, l.files, cs[0].key, cs[0].filename) then total - cs[0].size else total, max, cs[1..])
  {}

  const NOTHING := CleanupResult(0, 0, 0)

  datatype QueryFault = NoFault | OnInactive | OnTotal | OnLru

  /** The whole of a cleanup: the inactive tracked rows go first, and only if the store is then still
      too large do all rows become candidates, least recently used first. */
  ghost predicate CleanedUp(e: Env, before: Ledger, cutoff: int, max: int, fault: QueryFault, ok: bool, after: Ledger,
                            inactive: seq<Candidate>, lru: seq<Candidate>)
  {
    if fault == OnInactive then !ok && after == before && inactive == [] && lru == []
    else
      var middle := RemoveAll(e, before, inactive);
      && IsListing(before.rows, InactiveKeys(before.rows, cutoff), inactive)
      && if fault == OnTotal then !ok && after == middle && lru == []
         else if TotalSize(middle.rows) <= max then ok && after == middle && lru == []
         else if fault == OnLru then !ok && after == middle && lru == []
         else && ok && IsListing(middle.rows, middle.rows.Keys, lru)
              && after == Evict(e, middle, TotalSize(middle.rows), max, lru)
  }

  lemma ListsOneMore(rows: Rows, cs: seq<Candidate>, key: string)
    requires Lists(rows, cs) && key in rows && key !in KeysOf(cs)
    ensures var more := cs + [Candidate(key, rows[key].filename, rows[key].size)];
      Lists(rows, more) && KeysOf(more) == KeysOf(cs) + {key}
  {
    var c := Candidate(key, rows[key].filename, rows[key].size);
    assert forall x :: x in cs + [c] <==> x in cs || x == c;
    assert forall i :: 0 <= i < |cs| ==> cs[i] in cs;
  }

  lemma ListsRearranged(rows: Rows, all: seq<Candidate>, cs: seq<Candidate>)
    requires Lists(rows, all) && NoDuplicates(cs) && forall x :: x in all <==> x in cs
    ensures Lists(rows, cs) && KeysOf(cs) == KeysOf(all)
  {
    forall i, j | 0 <= i < j < |cs|
      ensures cs[i].key != cs[j].key
    {
      assert cs[i] in all && cs[j] in all;
    }
  }

  // ---- What one removal, and a run of them, does ----

  /** Whether nothing stands in the way of removing a row. */
  predicate Evictable(e: Env, l: Ledger, key: string)
    requires key in l.rows
  {
    Removable(e, l.files, key, l.rows[key].filename)
  }

  /** A removal keeps every verdict about other rows: the files it deletes were not stuck. */
  lemma VerdictStays(e: Env, l: Ledger, c: Candidate, key: string, filename: string)
    ensures Removable(e, Remove(e, l, c).files, key, filename) == Removable(e, l.files, key, filename)
  {}

  lemma RemoveAccounts(e: Env, l: Ledger, c: Candidate)
    requires Describes(l.rows, c)
    ensures var l' := Remove(e, l, c);
      && l'.rows == (if Evictable(e, l, c.key) then l.rows - {c.key} else l.rows)
      && TotalSize(l'.rows) == TotalSize(l.rows) - (if Evictable(e, l, c.key) then c.size else 0)
      && l'.result.released == l.result.released + TotalSize(l.rows) - TotalSize(l'.rows)
      && l'.result.removed == l.result.removed + |l.rows| - |l'.rows|
  {
    TotalSizeWithout(l.rows, c.key);
    assert |l.rows - {c.key}| == |l.rows| - 1 by {
      assert (l.rows - {c.key}).Keys == l.rows.Keys - {c.key};
      assert |l.rows.Keys| == |l.rows| && |(l.rows - {c.key}).Keys| == |l.rows - {c.key}|;
    }
  }

  lemma ListsRest(e: Env, l: Ledger, cs: seq<Candidate>)
    requires cs != [] && Lists(l.rows, cs)
    ensures Describes(l.rows, cs[0]) && Lists(Remove(e, l, cs[0]).rows, cs[1..])
    ensures KeysOf(cs) == {cs[0].key} + KeysOf(cs[1..]) && cs[0].key !in KeysOf(cs[1..])
  {
    assert cs == [cs[0]] + cs[1..];
    forall c | c in cs[1..]
      ensures c.key != cs[0].key && c in cs
    {
      var k :| 0 <= k < |cs[1..]| && cs[1..][k] == c;
      assert cs[k + 1] == c;
    }
  }

  /** Removing a list removes exactly its evictable rows, and the result counts them. */
  lemma {:induction false} RemoveAllAccounts(e: Env, l: Ledger, cs: seq<Candidate>)
    requires Lists(l.rows, cs)
    ensures var l' := RemoveAll(e, l, cs);
      && (forall key :: key in l'.rows <==> key in l.rows && !(key in KeysOf(cs) && Evictable(e, l, key)))
      && (forall key :: key in l'.rows ==> l'.rows[key] == l.rows[key])
      && (forall key, filename :: Removable(e, l'.files, key, filename) == Removable(e, l.files, key, filename))
      && l'.result.released == l.result.released + TotalSize(l.rows) - TotalSize(l'.rows)
      && l'.result.removed == l.result.removed + |l.rows| - |l'.rows|
    decreases |cs|
  {
    if cs != [] {
      hide TotalSize, Remove, Removable;
      var l1 := Remove(e, l, cs[0]);
      forall key, filename { VerdictStays(e, l, cs[0], key, filename); }
      assert cs[0] in cs;
      RemoveAccounts(e, l, cs[0]);
      ListsRest(e, l, cs);
      RemoveAllAccounts(e, l1, cs[1..]);
    }
  }

  /** How many candidates the capacity phase takes from its list. */
  ghost function Taken(e: Env, l: Ledger, max: int, cs: seq<Candidate>): (p: nat)
    ensures p <= |cs|
    decreases |cs|
  {
    if cs == [] || TotalSize(l.rows) <= max then 0 else 1 + Taken(e, Remove(e, l, cs[0]), max, cs[1..])
  }

  lemma TakenUnfold(e: Env, l: Ledger, max: int, cs: seq<Candidate>)
    ensures Taken(e, l, max, cs)
         == if cs == [] || TotalSize(l.rows) <= max then 0 else 1 + Taken(e, Remove(e, l, cs[0]), max, cs[1..])
  {}

  /** The capacity phase takes the first candidate, and goes on as it would from there. */
  lemma EvictOne(e: Env, l: Ledger, max: int, cs: seq<Candidate>)
    requires Lists(l.rows, cs) && cs != [] && TotalSize(l.rows) > max
    ensures var l1, p := Remove(e, l, cs[0]), Taken(e, Remove(e, l, cs[0]), max, cs[1..]);
      && Lists(l1.rows, cs[1..]) && Taken(e, l, max, cs) == 1 + p
      && Evict(e, l, TotalSize(l.rows), max, cs) == Evict(e, l1, TotalSize(l1.rows), max, cs[1..])
      && RemoveAll(e, l, cs[..1 + p]) == RemoveAll(e, l1, cs[1..][..p])
  {
    hide TotalSize, Remove, Removable, Evict, RemoveAll, Taken, Lists, Describes, KeysOf;
    ListsRest(e, l, cs);
    RemoveAccounts(e, l, cs[0]);
    EvictUnfold(e, l, TotalSize(l.rows), max, cs);
    TakenUnfold(e, l, max, cs);
    RemoveAllUnfold(e, l, cs[..Taken(e, l, max, cs)]);
    PrefixStep(cs, Taken(e, l, max, cs));
  }

  lemma EvictNone(e: Env, l: Ledger, max: int, cs: seq<Candidate>)
    requires cs == [] || TotalSize(l.rows) <= max
    ensures Taken(e, l, max, cs) == 0 && Evict(e, l, TotalSize(l.rows), max, cs) == l && RemoveAll(e, l, cs[..0]) == l
  {
    hide TotalSize;
    assert cs[..0] == [];
  }

  /** The capacity phase removes the candidates it takes, in order. */
  lemma {:induction false} EvictIsPrefix(e: Env, l: Ledger, max: int, cs: seq<Candidate>)
    requires Lists(l.rows, cs)
    ensures Evict(e, l, TotalSize(l.rows), max, cs) == RemoveAll(e, l, cs[..Taken(e, l, max, cs)])
    ensures Taken(e, l, max, cs) < |cs| ==> TotalSize(RemoveAll(e, l, cs[..Taken(e, l, max, cs)]).rows) <= max
    decreases |cs|
  {
    hide TotalSize, Remove, Evict, RemoveAll, Taken, Lists;
    if cs == [] || TotalSize(l.rows) <= max {
      EvictNone(e, l, max, cs);
    } else {
      EvictOne(e, l, max, cs);
      EvictIsPrefix(e, Remove(e, l, cs[0]), max, cs[1..]);
    }
  }

  lemma PrefixStep(cs: seq<Candidate>, q: nat)
    requires 0 < q <= |cs|
    ensures cs[..q] != [] && cs[..q][0] == cs[0] && cs[..q][1..] == cs[1..][..q - 1]
  {}

  /** It stops at the first point where the total is within the limit: before each candidate taken the
      total was above it. */
  lemma {:induction false} EvictStopsFirst(e: Env, l: Ledger, max: int, cs: seq<Candidate>, q: nat)
    requires q < Taken(e, l, max, cs)
    ensures TotalSize(RemoveAll(e, l, cs[..q]).rows) > max
    decreases |cs|
  {
    if q > 0 {
      hide TotalSize, Remove;
      EvictStopsFirst(e, Remove(e, l, cs[0]), max, cs[1..], q - 1);
      PrefixStep(cs, q);
    }
  }

  // ---- What a cleanup promises ----

  /** The ledger between the two phases. */
  function Middle(e: Env, before: Ledger, inactive: seq<Candidate>): Ledger { RemoveAll(e, before, inactive) }

  /** A cleanup is two runs of removals: the inactive rows, then a prefix of the others. */
  lemma CleanupIsTwoRuns(e: Env, before: Ledger, cutoff: int, max: int, fault: QueryFault, ok: bool, after: Ledger,
                         inactive: seq<Candidate>, lru: seq<Candidate>)
    requires CleanedUp(e, before, cutoff, max, fault, ok, after, inactive, lru)
    ensures Lists(before.rows, inactive) && Lists(Middle(e, before, inactive).rows, lru)
    ensures after == RemoveAll(e, Middle(e, before, inactive), lru[..Taken(e, Middle(e, before, inactive), max, lru)])
  {
    hide Evict, TotalSize, Remove;
    var middle := Middle(e, before, inactive);
    if lru == [] {
      assert lru[..0] == [];
    }
    if lru != [] || (ok && TotalSize(middle.rows) > max) {
      EvictIsPrefix(e, middle, max, lru);
    }
  }

  /** The result accounts for what left the store: bytes and rows. */
  lemma CleanupAccounts(e: Env, before: Ledger, cutoff: int, max: int, fault: QueryFault, ok: bool, after: Ledger,
                        inactive: seq<Candidate>, lru: seq<Candidate>)
    requires CleanedUp(e, before, cutoff, max, fault, ok, after, inactive, lru) && before.result == NOTHING
    ensures after.result.released == TotalSize(before.rows) - TotalSize(after.rows)
    ensures after.result.removed == |before.rows| - |after.rows|
  {
    hide RemoveAll, TotalSize, CleanedUp, Taken;
    CleanupIsTwoRuns(e, before, cutoff, max, fault, ok, after, inactive, lru);
    var middle := Middle(e, before, inactive);
    RemoveAllAccounts(e, before, inactive);
    RemoveAllAccounts(e, middle, lru[..Taken(e, middle, max, lru)]);
  }

  /** Which rows a cleanup leaves: nothing is changed, and only evictable rows go, either as inactive
      or as one of the candidates taken by the capacity phase. */
  lemma CleanupRows(e: Env, before: Ledger, cutoff: int, max: int, fault: QueryFault, ok: bool, after: Ledger,
                    inactive: seq<Candidate>, lru: seq<Candidate>, key: string)
    requires CleanedUp(e, before, cutoff, max, fault, ok, after, inactive, lru)
    ensures var middle := Middle(e, before, inactive);
      && (key in middle.rows <==> key in before.rows && !(key in KeysOf(inactive) && Evictable(e, before, key)))
      && (key in after.rows <==>
            key in middle.rows && !(key in KeysOf(lru[..Taken(e, middle, max, lru)]) && Evictable(e, before, key)))
      && (key in after.rows ==> after.rows[key] == before.rows[key])
      && (key in middle.rows ==> middle.rows[key] == before.rows[key])
  {
    hide RemoveAll, TotalSize, CleanedUp, Taken, Removable;
    CleanupIsTwoRuns(e, before, cutoff, max, fault, ok, after, inactive, lru);
    var middle := Middle(e, before, inactive);
    RemoveAllAccounts(e, before, inactive);
    RemoveAllAccounts(e, middle, lru[..Taken(e, middle, max, lru)]);
  }

  /** Entries with an active session are never removed, nor those whose file, watch or row cannot be. */
  lemma CleanupKeepsBlocked(e: Env, before: Ledger, cutoff: int, max: int, fault: QueryFault, ok: bool, after: Ledger,
                            inactive: seq<Candidate>, lru: seq<Candidate>, key: string)
    requires CleanedUp(e, before, cutoff, max, fault, ok, after, inactive, lru) && key in before.rows
    requires || key in e.active || key in e.watchFaults || key in e.rowFaults
             || (before.rows[key].filename in before.files && before.rows[key].filename in e.stuck)
    ensures key in after.rows && after.rows[key] == before.rows[key]
  {
    hide RemoveAll, TotalSize, CleanedUp, Taken, Middle;
    CleanupRows(e, before, cutoff, max, fault, ok, after, inactive, lru, key);
  }

  /** A cleanup succeeds exactly when it meets no failing query; it lists the rows by last access only if the
      total is above the limit by then. */
  lemma CleanupSucceedsIff(e: Env, before: Ledger, cutoff: int, max: int, fault: QueryFault, ok: bool, after: Ledger,
                           inactive: seq<Candidate>, lru: seq<Candidate>)
    requires CleanedUp(e, before, cutoff, max, fault, ok, after, inactive, lru)
    ensures ok <==> fault == NoFault || (fault == OnLru && TotalSize(Middle(e, before, inactive).rows) <= max)
    ensures fault == OnInactive ==> after == before
  {
    hide RemoveAll, TotalSize, Evict, IsListing;
  }

  /** A cleanup that succeeds ends within the limit, or with nothing left that it could remove. */
  lemma CleanupBound(e: Env, before: Ledger, cutoff: int, max: int, fault: QueryFault, after: Ledger,
                     inactive: seq<Candidate>, lru: seq<Candidate>)
    requires CleanedUp(e, before, cutoff, max, fault, true, after, inactive, lru)
    ensures TotalSize(after.rows) <= max || forall key :: key in after.rows ==> key in before.rows && !Evictable(e, before, key)
  {
    var middle := Middle(e, before, inactive);
    if TotalSize(middle.rows) > max {
      hide RemoveAll, TotalSize, Evictable, Evict;
      EvictIsPrefix(e, middle, max, lru);
      var p := Taken(e, middle, max, lru);
      if p == |lru| {
        assert lru[..p] == lru;
        forall key | key in after.rows
          ensures key in before.rows && !Evictable(e, before, key)
        {
          CleanupRows(e, before, cutoff, max, fault, true, after, inactive, lru, key);
        }
      }
    }
  }

  /** Untracked rows, and those used since the cutoff, go only under capacity pressure that the inactive rows did
      not relieve. */
  lemma CleanupSparesRecent(e: Env, before: Ledger, cutoff: int, max: int, fault: QueryFault, ok: bool, after: Ledger,
                            inactive: seq<Candidate>, lru: seq<Candidate>, key: string)
    requires CleanedUp(e, before, cutoff, max, fault, ok, after, inactive, lru)
    requires key in before.rows && (!before.rows[key].tracked || before.rows[key].lastAccess >= cutoff) && key !in after.rows
    ensures TotalSize(Middle(e, before, inactive).rows) > max
  {
    hide RemoveAll, TotalSize, Taken, Evict;
    CleanupRows(e, before, cutoff, max, fault, ok, after, inactive, lru, key);
    assert fault != OnInactive ==> KeysOf(inactive) == InactiveKeys(before.rows, cutoff);
    assert KeysOf([]) == {};
  }

  /** Every tracked row last used before the cutoff goes, if its session is not active and nothing fails. */
  lemma CleanupRemovesInactive(e: Env, before: Ledger, cutoff: int, max: int, fault: QueryFault, ok: bool, after: Ledger,
                               inactive: seq<Candidate>, lru: seq<Candidate>, key: string)
    requires CleanedUp(e, before, cutoff, max, fault, ok, after, inactive, lru) && fault != OnInactive
    requires key in before.rows && before.rows[key].tracked && before.rows[key].lastAccess < cutoff
    requires key !in e.active && key !in e.watchFaults && key !in e.rowFaults
    requires !(before.rows[key].filename in before.files && before.rows[key].filename in e.stuck)
    ensures key !in after.rows
  {
    hide RemoveAll, TotalSize, Taken, Evict;
    CleanupRows(e, before, cutoff, max, fault, ok, after, inactive, lru, key);
    assert KeysOf(inactive) == InactiveKeys(before.rows, cutoff);
  }

  lemma CleanupListing(e: Env, before: Ledger, cutoff: int, max: int, fault: QueryFault, ok: bool, after: Ledger,
                       inactive: seq<Candidate>, lru: seq<Candidate>)
    requires CleanedUp(e, before, cutoff, max, fault, ok, after, inactive, lru)
    ensures lru == [] || IsListing(Middle(e, before, inactive).rows, Middle(e, before, inactive).rows.Keys, lru)
  {
    hide RemoveAll, TotalSize, Evict, IsListing;
  }

  lemma FindKey(cs: seq<Candidate>, key: string) returns (i: nat)
    requires key in KeysOf(cs)
    ensures i < |cs| && cs[i].key == key
  {
    var c :| c in cs && c.key == key;
    i :| i < |cs| && cs[i] == c;
  }

  lemma HasKey(cs: seq<Candidate>, i: nat)
    requires i < |cs|
    ensures cs[i].key in KeysOf(cs)
  {
    assert cs[i] in cs;
  }

  lemma PrefixIsOldest(rows: Rows, cs: seq<Candidate>, p: nat, gone: string, kept: string)
    requires cs == [] || IsListing(rows, rows.Keys, cs)
    requires p <= |cs| && gone in KeysOf(cs[..p]) && kept in rows && kept !in KeysOf(cs[..p])
    ensures gone in rows && rows[gone].lastAccess <= rows[kept].lastAccess
  {
    hide KeysOf, Lists;
    var i := FindKey(cs[..p], gone);
    var j := FindKey(cs, kept);
    HasKey(cs, i);
    if j < p {
      HasKey(cs[..p], j);
    }
    assert Access(rows, cs[i].key) <= Access(rows, cs[j].key);
  }

  /** The capacity phase evicts in least-recently-used order: nothing evictable that stays was used
      longer ago than anything that phase removed. */
  lemma CleanupEvictsOldest(e: Env, before: Ledger, cutoff: int, max: int, fault: QueryFault, ok: bool, after: Ledger,
                            inactive: seq<Candidate>, lru: seq<Candidate>, gone: string, kept: string)
    requires CleanedUp(e, before, cutoff, max, fault, ok, after, inactive, lru)
    requires gone in Middle(e, before, inactive).rows && gone !in after.rows
    requires kept in after.rows && kept in before.rows && Evictable(e, before, kept)
    ensures gone in before.rows && before.rows[gone].lastAccess <= before.rows[kept].lastAccess
  {
    hide RemoveAll, Taken, Evictable, CleanedUp, IsListing, KeysOf;
    var middle := Middle(e, before, inactive);
    CleanupRows(e, before, cutoff, max, fault, ok, after, inactive, lru, gone);
    CleanupRows(e, before, cutoff, max, fault, ok, after, inactive, lru, kept);
    CleanupListing(e, before, cutoff, max, fault, ok, after, inactive, lru);
    PrefixIsOldest(middle.rows, lru, Taken(e, middle, max, lru), gone, kept);
  }

  /** It stops at the first point within the limit: before each candidate it takes, the total is above. */
  lemma CleanupStopsFirst(e: Env, before: Ledger, cutoff: int, max: int, fault: QueryFault, ok: bool, after: Ledger,
                          inactive: seq<Candidate>, lru: seq<Candidate>, q: nat)
    requires CleanedUp(e, before, cutoff, max, fault, ok, after, inactive, lru)
    requires q < Taken(e, Middle(e, before, inactive), max, lru)
    ensures TotalSize(RemoveAll(e, Middle(e, before, inactive), lru[..q]).rows) > max
  {
    EvictStopsFirst(e, Middle(e, before, inactive), max, lru, q);
  }

  // ---- Files and watches ----

  /** One of `cs` takes the file along: its session is not active, and the file can be removed. */
  ghost predicate Deletes(e: Env, cs: seq<Candidate>, filename: string) {
    filename !in e.stuck && exists c :: c in cs && c.filename == filename && c.key !in e.active
  }

  /** One of `cs` takes the watch along: its file is gone too, and the watch can be deleted. */
  ghost predicate Unwatches(e: Env, files: set<string>, cs: seq<Candidate>, key: string) {
    && key !in e.active && key !in e.watchFaults
    && exists c :: c in cs && c.key == key && !(c.filename in files && c.filename in e.stuck)
  }

  function SkipsOf(e: Env, cs: seq<Candidate>): set<nat> { set i | 0 <= i < |cs| && cs[i].key in e.active }

  /** Exactly which files and watches a run of removals takes away, and how many candidates it skips. */
  lemma {:induction false} RemoveAllTouches(e: Env, l: Ledger, cs: seq<Candidate>)
    ensures var l' := RemoveAll(e, l, cs);
      && (forall f :: f in l'.files <==> f in l.files && !Deletes(e, cs, f))
      && (forall k :: k in l'.watches <==> k in l.watches && !Unwatches(e, l.files, cs, k))
      && l'.result.skipped == l.result.skipped + |SkipsOf(e, cs)|
    decreases |cs|
  {
    hide Deletes, Unwatches, SkipsOf;
    if cs == [] {
      NothingTouched(e, l.files);
    } else {
      var l1 := Remove(e, l, cs[0]);
      hide Remove;
      RemoveAllUnfold(e, l, cs);
      RemoveAllTouches(e, l1, cs[1..]);
      OneSkip(e, cs);
      RemoveSkips(e, l, cs[0]);
      forall f ensures f in RemoveAll(e, l, cs).files <==> f in l.files && !Deletes(e, cs, f) {
        OneDelete(e, l, cs, f);
      }
      forall k ensures k in RemoveAll(e, l, cs).watches <==> k in l.watches && !Unwatches(e, l.files, cs, k) {
        OneUnwatch(e, l, cs, k);
      }
    }
  }

  lemma NothingTouched(e: Env, files: set<string>)
    ensures SkipsOf(e, []) == {}
    ensures forall f :: !Deletes(e, [], f)
    ensures forall k :: !Unwatches(e, files, [], k)
  {}

  lemma OneSkip(e: Env, cs: seq<Candidate>)
    requires cs != []
    ensures |SkipsOf(e, cs)| == |SkipsOf(e, cs[1..])| + (if cs[0].key in e.active then 1 else 0)
  {
    var rest := SkipsOf(e, cs) - {0};
    assert forall i: nat :: i in SkipsOf(e, cs[1..]) <==> i + 1 in rest;
    Shifted(SkipsOf(e, cs[1..]), rest);
    if cs[0].key in e.active {
      assert SkipsOf(e, cs) == rest + {0};
    } else {
      assert SkipsOf(e, cs) == rest;
    }
  }

  lemma RemoveSkips(e: Env, l: Ledger, c: Candidate)
    ensures Remove(e, l, c).result.skipped == l.result.skipped + (if c.key in e.active then 1 else 0)
  {}

  lemma {:induction false} Shifted(s: set<nat>, t: set<nat>)
    requires 0 !in t && forall i: nat :: i in s <==> i + 1 in t
    ensures |t| == |s|
    decreases |s|
  {
    assert forall y: nat :: y in t ==> y > 0 && y - 1 in s;
    if s != {} {
      var x :| x in s;
      Shifted(s - {x}, t - {x + 1});
    }
  }

  lemma OneDelete(e: Env, l: Ledger, cs: seq<Candidate>, f: string)
    requires cs != []
    ensures f in Remove(e, l, cs[0]).files && !Deletes(e, cs[1..], f) <==> f in l.files && !Deletes(e, cs, f)
  {
    assert cs == [cs[0]] + cs[1..];
    assert forall c :: c in cs <==> c == cs[0] || c in cs[1..];
  }

  lemma OneUnwatch(e: Env, l: Ledger, cs: seq<Candidate>, k: string)
    requires cs != []
    ensures var l1 := Remove(e, l, cs[0]);
      k in l1.watches && !Unwatches(e, l1.files, cs[1..], k) <==> k in l.watches && !Unwatches(e, l.files, cs, k)
  {
    assert cs == [cs[0]] + cs[1..];
    assert forall c :: c in cs <==> c == cs[0] || c in cs[1..];
    assert forall f :: f in e.stuck ==> (f in Remove(e, l, cs[0]).files <==> f in l.files);
  }

  /** The candidates a cleanup tries to remove. */
  ghost function Tried(e: Env, before: Ledger, max: int, inactive: seq<Candidate>, lru: seq<Candidate>): seq<Candidate> {
    inactive + lru[..Taken(e, Middle(e, before, inactive), max, lru)]
  }

  lemma {:induction false} RemoveAllConcat(e: Env, l: Ledger, cs: seq<Candidate>, ds: seq<Candidate>)
    ensures RemoveAll(e, l, cs + ds) == RemoveAll(e, RemoveAll(e, l, cs), ds)
    decreases |cs|
  {
    hide Remove;
    if cs == [] {
      assert cs + ds == ds;
    } else {
      assert (cs + ds)[1..] == cs[1..] + ds;
      RemoveAllConcat(e, Remove(e, l, cs[0]), cs[1..], ds);
    }
  }

  /** Exactly which files and watches a cleanup takes away. */
  lemma CleanupTouches(e: Env, before: Ledger, cutoff: int, max: int, fault: QueryFault, ok: bool, after: Ledger,
                       inactive: seq<Candidate>, lru: seq<Candidate>)
    requires CleanedUp(e, before, cutoff, max, fault, ok, after, inactive, lru)
    ensures var tried := Tried(e, before, max, inactive, lru);
      && (forall f :: f in after.files <==> f in before.files && !Deletes(e, tried, f))
      && (forall k :: k in after.watches <==> k in before.watches && !Unwatches(e, before.files, tried, k))
      && after.result.skipped == before.result.skipped + |SkipsOf(e, tried)|
  {
    hide RemoveAll, CleanedUp, Taken, Deletes, Unwatches, SkipsOf;
    CleanupIsTwoRuns(e, before, cutoff, max, fault, ok, after, inactive, lru);
    RemoveAllConcat(e, before, inactive, lru[..Taken(e, Middle(e, before, inactive), max, lru)]);
    RemoveAllTouches(e, before, Tried(e, before, max, inactive, lru));
  }

  /** Every candidate is a row of the store as it was. */
  lemma TriedAreRows(e: Env, before: Ledger, cutoff: int, max: int, fault: QueryFault, ok: bool, after: Ledger,
                     inactive: seq<Candidate>, lru: seq<Candidate>)
    requires CleanedUp(e, before, cutoff, max, fault, ok, after, inactive, lru)
    ensures forall c :: c in Tried(e, before, max, inactive, lru) ==> Describes(before.rows, c)
  {
    hide RemoveAll, CleanedUp, Taken;
    CleanupIsTwoRuns(e, before, cutoff, max, fault, ok, after, inactive, lru);
    RemoveAllAccounts(e, before, inactive);
    var taken := lru[..Taken(e, Middle(e, before, inactive), max, lru)];
    forall c | c in Tried(e, before, max, inactive, lru) ensures Describes(before.rows, c) {
      if c !in inactive {
        assert c in taken;
        assert c in lru;
      }
    }
  }

  /** A row that went took its file and its watch along. */
  lemma CleanupRemovesFile(e: Env, before: Ledger, cutoff: int, max: int, fault: QueryFault, ok: bool, after: Ledger,
                           inactive: seq<Candidate>, lru: seq<Candidate>, key: string)
    requires CleanedUp(e, before, cutoff, max, fault, ok, after, inactive, lru)
    requires key in before.rows && key !in after.rows
    ensures before.rows[key].filename !in after.files && key !in after.watches
  {
    hide RemoveAll, CleanedUp, Taken, Middle;
    CleanupRows(e, before, cutoff, max, fault, ok, after, inactive, lru, key);
    CleanupTouches(e, before, cutoff, max, fault, ok, after, inactive, lru);
    TriedAreRows(e, before, cutoff, max, fault, ok, after, inactive, lru);
    var taken := lru[..Taken(e, Middle(e, before, inactive), max, lru)];
    var c :| (c in inactive || c in taken) && c.key == key;
    assert c in Tried(e, before, max, inactive, lru);
  }

  /** A file that went was that of a candidate without an active session, and could be removed. */
  lemma CleanupRemovesOnly(e: Env, before: Ledger, cutoff: int, max: int, fault: QueryFault, ok: bool, after: Ledger,
                           inactive: seq<Candidate>, lru: seq<Candidate>, filename: string)
    requires CleanedUp(e, before, cutoff, max, fault, ok, after, inactive, lru)
    requires filename in before.files && filename !in after.files
    ensures filename !in e.stuck
    ensures exists c :: c in Tried(e, before, max, inactive, lru) && c.filename == filename && c.key !in e.active
                        && c.key in before.rows && before.rows[c.key].filename == filename
  {
    hide RemoveAll, CleanedUp, Taken, Tried;
    CleanupTouches(e, before, cutoff, max, fault, ok, after, inactive, lru);
    TriedAreRows(e, before, cutoff, max, fault, ok, after, inactive, lru);
  }

  /** A row that is no candidate, or has an active session, keeps its file and its watch, if no two rows share
      a file; and no file or watch is ever made. */
  lemma CleanupKeepsFiles(e: Env, before: Ledger, cutoff: int, max: int, fault: QueryFault, ok: bool, after: Ledger,
                          inactive: seq<Candidate>, lru: seq<Candidate>, key: string)
    requires CleanedUp(e, before, cutoff, max, fault, ok, after, inactive, lru)
    requires forall k, k' :: k in before.rows && k' in before.rows && before.rows[k].filename == before.rows[k'].filename ==> k == k'
    requires key in before.rows && (key in e.active || key !in KeysOf(Tried(e, before, max, inactive, lru)))
    ensures before.rows[key].filename in after.files <==> before.rows[key].filename in before.files
    ensures key in after.watches <==> key in before.watches
    ensures after.files <= before.files && after.watches <= before.watches
  {
    hide RemoveAll, CleanedUp, Taken, Tried;
    CleanupTouches(e, before, cutoff, max, fault, ok, after, inactive, lru);
    TriedAreRows(e, before, cutoff, max, fault, ok, after, inactive, lru);
  }
}
