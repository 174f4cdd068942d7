/** What keeps a reader going, what a request may ask for, and what a crash may do: that the steps of
    Downloads can be taken where the code would take them. */
module DownloadProgress {
  import opened Records
  import opened SessionMonitor
  import opened Downloads
  import opened DownloadInvariant
  import opened DownloadSteps
  import opened DownloadRuns
  import opened DownloadHistory
  import opened DownloadTheorems
  import opened DownloadReaders
  import opened Ranges

  // ---- Readers ----

  /** A reader over an existing file waits exactly while it has been sent all that is announced, but not all it
      asked for, and the download goes on. */
  lemma WaitsIff(s: State, r: nat)
    requires Reachable(s) && r < |s.requests| && s.requests[r].Streaming? && s.requests[r].fd < |s.inodes|
    ensures var q := s.requests[r];
      && q.sid < |s.sessions|
      && var m, offset := s.sessions[q.sid].m, q.start + |q.sent|;
         (!CanAsk(s, q, Check) && forall n :: !CanAsk(s, q, Copy(n))) <==>
           offset >= m.available && !m.complete && (q.end < 0 || offset <= q.end)
  {
    hide Reachable, Core, SentOk;
    EveryRun(s);
    var q := s.requests[r];
    assert RequestOk(s, q);
    if q.limit > q.start + |q.sent| {
      assert CanAsk(s, q, Copy(1));
    }
  }

  /** The same session, file and bytes asked for. */
  predicate SameStream(p: Request, q: Request) {
    p.Streaming? && q.Streaming? && q.sid == p.sid && q.fd == p.fd && q.start == p.start && q.end == p.end
  }

  /** Where the copying loop is to stop: at the end of what is announced, or of what was asked for. */
  function Goal(m: Monitor, end: int): int { if end >= 0 && end < m.available then end + 1 else m.available }

  /** A pass of the loop ends the response or sets the copying loop off; it ends it exactly when everything that
      was asked for, or everything there will be, has been sent. */
  lemma PassAdvances(s: State, r: nat)
    requires Reachable(s) && r < |s.requests| && CanAsk(s, s.requests[r], Check)
    ensures var q, a := s.requests[r], Answer(s, s.requests[r], Check);
      && q.sid < |s.sessions|
      && var m := s.sessions[q.sid].m;
         && (a.Streaming? ==> a.start + |a.sent| < a.limit == Goal(m, a.end))
         && (a.Streaming? ==> SameStream(q, a) && a.sent == q.sent)
         && (!a.Streaming? <==> q.start + |q.sent| >= Goal(m, q.end) || (q.end >= 0 && q.start + |q.sent| > q.end))
         && (a.Returned? <==> !a.Streaming? && (!m.failed || (q.end >= 0 && q.start + |q.sent| > q.end)))
         && (a.Returned? ==> a == Returned(q.sid, q.fd, q.start, q.end, q.sent))
  {
    hide Reachable, Core, SentOk;
    EveryRun(s);
    assert RequestOk(s, s.requests[r]);
  }

  lemma ReaderStep(s: State, r: nat, a: Ask) returns (t: State)
    requires Reachable(s) && r < |s.requests| && CanAsk(s, s.requests[r], a) && !a.Join?
    ensures Reachable(t) && Enabled(s, Reader(r, a)) && t == Apply(s, Reader(r, a))
    ensures t == s.(requests := s.requests[r := Answer(s, s.requests[r], a)])
  {
    hide Reachable, Answer;
    t := Apply(s, Reader(r, a));
    Reaches(s, Reader(r, a));
  }

  predicate OnlyReads(steps: seq<Step>, r: nat) {
    forall k :: 0 <= k < |steps| ==> steps[k].Reader? && steps[k].r == r && (steps[k].ask.Check? || steps[k].ask.Copy?)
  }

  /** Request r is taken on to a pass of its loop with everything sent up to its limit. */
  lemma CopyAll(s: State, r: nat) returns (steps: seq<Step>, t: State)
    requires Reachable(s) && r < |s.requests| && s.requests[r].Streaming? && Own(s, s.requests[r].sid, s.requests[r].fd)
    ensures IsRun(s, steps) && After(s, steps) == t && OnlyReads(steps, r) && Reachable(t)
    ensures t.sessions == s.sessions && t.emptied == s.emptied && |t.requests| == |s.requests|
    ensures SameStream(s.requests[r], t.requests[r]) && t.requests[r].limit == s.requests[r].limit
    ensures t.requests[r].start + |t.requests[r].sent| == t.requests[r].limit
  {
    hide Reachable, Inv, Answer, Apply;
    var q := s.requests[r];
    assert q.start + |q.sent| <= q.limit && q.fd < |s.inodes| by { StreamsWithin(s, q); }
    var n := q.limit - q.start - |q.sent|;
    if n == 0 {
      steps, t := [], s;
    } else {
      ReadsMakeProgress(s, r, n);
      CopyGoesOn(s, q, n);
      t := ReaderStep(s, r, Copy(n));
      steps := [Reader(r, Copy(n))];
      assert steps[1..] == [];
      assert IsRun(t, steps[1..]) && After(t, steps[1..]) == t;
    }
  }

  lemma StreamsWithin(s: State, q: Request)
    requires Reachable(s) && q in s.requests && q.Streaming? && Own(s, q.sid, q.fd)
    ensures q.start + |q.sent| <= q.limit && q.fd < |s.inodes|
  {
    hide Reachable, Core, SentOk;
    EveryRun(s);
    OkSession(s, q.sid);
    assert RequestOk(s, q);
  }

  lemma CopyGoesOn(s: State, q: Request, n: nat)
    requires CanAsk(s, q, Copy(n))
    ensures var a := Answer(s, q, Copy(n)); SameStream(q, a) && a.limit == q.limit
  {}

  /** One step more. */
  lemma {:induction false} RunOn(s: State, steps: seq<Step>, more: seq<Step>)
    requires IsRun(s, steps) && IsRun(After(s, steps), more)
    ensures IsRun(s, steps + more) && After(s, steps + more) == After(After(s, steps), more)
    decreases |steps|
  {
    hide Enabled, Apply;
    if steps == [] {
      assert steps + more == more;
    } else {
      assert (steps + more)[1..] == steps[1..] + more;
      RunOn(Apply(s, steps[0]), steps[1..], more);
    }
  }

  /** A pass of the loop after everything allowed has been sent. */
  lemma CheckOnce(s: State, r: nat) returns (steps: seq<Step>, t: State)
    requires Reachable(s) && r < |s.requests| && s.requests[r].Streaming? && Own(s, s.requests[r].sid, s.requests[r].fd)
    requires s.requests[r].start + |s.requests[r].sent| == s.requests[r].limit && s.sessions[s.requests[r].sid].m.complete
    ensures IsRun(s, steps) && After(s, steps) == t && OnlyReads(steps, r) && Reachable(t)
    ensures t.sessions == s.sessions && t.emptied == s.emptied && |t.requests| == |s.requests|
    ensures CanAsk(s, s.requests[r], Check) && t.requests[r] == Answer(s, s.requests[r], Check)
  {
    hide Reachable, Inv, Answer, Apply;
    t := ReaderStep(s, r, Check);
    steps := [Reader(r, Check)];
    assert steps[1..] == [];
    assert IsRun(t, steps[1..]) && After(t, steps[1..]) == t;
  }

  /** Once its download has ended, a reader of its session's own file can always go on to the end, by reading
      alone: without an error exactly when the download succeeded, or had announced all that was asked for. */
  lemma ReaderFinishes(s: State, r: nat) returns (steps: seq<Step>)
    requires Reachable(s) && r < |s.requests| && s.requests[r].Streaming? && Own(s, s.requests[r].sid, s.requests[r].fd)
    requires s.sessions[s.requests[r].sid].m.complete
    ensures IsRun(s, steps) && OnlyReads(steps, r)
    ensures var e, q, m := After(s, steps), s.requests[r], s.sessions[s.requests[r].sid].m;
      && r < |e.requests| && (e.requests[r].Returned? || e.requests[r].Over?)
      && (e.requests[r].Returned? <==> !m.failed || 0 <= q.end < m.available)
  {
    hide Reachable, Inv, Answer, CanAsk, IsRun, After;
    var t, more, u;
    steps, t := CopyAll(s, r);
    more, u := CheckOnce(t, r);
    PassAdvances(t, r);
    RunOn(s, steps, more);
    steps := steps + more;
    CheckEnds(t, t.requests[r]);
    ReaderBounds(t, t.requests[r]);
    if u.requests[r].Streaming? {
      var v;
      more, v := CopyAll(u, r);
      RunOn(s, steps, more);
      steps := steps + more;
      more, u := CheckOnce(v, r);
      PassAdvances(v, r);
      CheckEnds(v, v.requests[r]);
      RunOn(s, steps, more);
      steps := steps + more;
    }
  }

  lemma CheckEnds(s: State, q: Request)
    requires CanAsk(s, q, Check)
    ensures var a := Answer(s, q, Check); a.Streaming? || a.Returned? || a.Over?
  {}

  lemma ReaderBounds(s: State, q: Request)
    requires Reachable(s) && q in s.requests && q.Streaming?
    ensures q.sid < |s.sessions|
    ensures q.sent != [] ==> q.start + |q.sent| <= s.sessions[q.sid].m.available
    ensures q.end >= 0 ==> q.start <= q.end && q.start + |q.sent| <= q.end + 1
  {
    hide Reachable, Core, SentOk;
    EveryRun(s);
    assert RequestOk(s, q);
  }

  // ---- Which bytes can be asked for ----

  /** What parseRange answers is what a request may open its file with; and every such part can be asked for. */
  lemma ParsedRanges(header: string, total: int, scan: IntScanner)
    ensures var a := RangeIn(header, total, scan);
      && (a.Whole? ==> RangeOf(total, 0, -1))
      && (a.Part? ==> a.start >= 0 && RangeOf(total, a.start, a.end))
  {
    hide RangeIn;
  }

  lemma EveryRangeParses(total: nat, start: nat, end: nat, scan: IntScanner)
    requires ScansDecimals(scan) && total < Text.TWO63
    ensures RangeOf(total, start, end) <==> start < total && RangeIn(PrintRange(start, end), total, scan) == Part(start, end)
  {
    hide RangeIn, PrintRange;
    if start < total && end < total {
      ParsePrintedRange(start, end, total, scan);
    }
  }

  /** A request may end at any moment, and that changes nothing else. */
  lemma QuitsAnyTime(s: State, r: nat)
    requires r < |s.requests|
    ensures Enabled(s, Reader(r, Quit)) && Apply(s, Reader(r, Quit)) == s.(requests := s.requests[r := Over])
  {}

  // ---- What a crash may do ----

  /** Lose or scramble whatever was not synced, any part files, and any rows; and lead the artifact paths back to
      files that were there before. */
  lemma CrashMayLose(s: State, inodes: seq<Bytes>, part: map<Key, nat>, artifact: map<Key, nat>, rows: map<Key, nat>)
    requires Reachable(s) && |inodes| == |s.inodes|
    requires forall i: nat :: i in s.synced && i < |s.inodes| ==> inodes[i] == s.inodes[i]
    requires forall k :: k in part ==> k in s.part && part[k] == s.part[k]
    requires forall k :: k in artifact ==> (k, artifact[k]) in s.promoted
    ensures Enabled(s, Crash(inodes, part, artifact, rows, s.makers))
  {
    hide Reachable, SessionOk, ActiveOk, RequestsOk, History;
    EveryReader(s);
  }

  /** Undo a rename: the promoted bytes are under the part path again, and the artifact path leads to another file
      promoted before or to none. */
  lemma CrashMayUndo(s: State, key: Key, i: nat, artifact: map<Key, nat>, rows: map<Key, nat>)
    requires Reachable(s) && (key, i) in s.promoted && (key in artifact ==> artifact[key] != i)
    requires forall k :: k in artifact ==> (k, artifact[k]) in s.promoted
    ensures i < |s.inodes|
    ensures Enabled(s, Crash(s.inodes + [s.inodes[i]], map[key := |s.inodes|], artifact, rows, s.makers + [key]))
  {
    hide Reachable, SessionOk, ActiveOk, RequestsOk, History;
    EveryReader(s);
    assert Undone(s, s.inodes + [s.inodes[i]], artifact, s.makers + [key], key, |s.inodes|);
  }
}
