/** Readers of artifacts: of a session that answers from the cached object after a 304, whatever the row says
    of it, and of any other whose file was promoted. */
module DownloadReuse {
  import opened Records
  import opened Sequences
  import opened SessionMonitor
  import opened Downloads
  import opened DownloadInvariant
  import opened DownloadSteps
  import opened DownloadRuns
  import opened DownloadHistory
  import opened DownloadTheorems
  import opened DownloadReaders

  // ---- What they are sent ----

  /** The cached object becomes the session's own file exactly when its length is the row's size; that
      size is what is announced, in any case. */
  lemma ReuseOwnIff(s: State, j: nat, i: nat)
    requires Reachable(s) && j < |s.sessions| && CanWork(s.sessions[j], Reuse)
    requires Lookup(s, s.sessions[j].key, ArtifactFile) == Some(i)
    ensures var t := Apply(s, Writer(j, Reuse));
      && (Own(t, j, i) <==> |s.inodes[i]| == s.sessions[j].prior.value)
      && t.sessions[j].m.available == t.sessions[j].m.total == s.sessions[j].prior.value
  {
    hide Reachable;
    EveryRun(s);
    OkSession(s, j);
  }

  /** The session of a request answers from the cached object. */
  predicate Reuses(s: State, q: Request) {
    (q.Streaming? || q.Returned?) && q.sid < |s.sessions| && s.sessions[q.sid].fate == Dropped
  }

  /** Every byte sent is that of one whole body, from `start` on. */
  lemma ReusedBytes(s: State, q: Request)
    requires Reachable(s) && q in s.requests && Reuses(s, q)
    ensures q.fd < |s.inodes| && (s.sessions[q.sid].key, q.fd) in s.promoted
    ensures (s.sessions[q.sid].key, s.inodes[q.fd]) in s.bodies && IsSlice(s.inodes[q.fd], q.start, q.sent)
  {
    hide Reachable, SessionOk, IsSlice;
    EveryRun(s);
    assert RequestOk(s, q) && SentOk(s, q.sid, q.fd, q.start, q.sent);
  }

  /** A response without a range that ended without an error is the whole object exactly when the object
      has the announced length; and it has at least that. */
  lemma ReusedDelivery(s: State, q: Request)
    requires Reachable(s) && q in s.requests && Reuses(s, q) && q.Returned? && q.end < 0
    ensures q.fd < |s.inodes| && s.sessions[q.sid].m.total == |q.sent| <= |s.inodes[q.fd]|
    ensures q.sent == s.inodes[q.fd] <==> |s.inodes[q.fd]| == s.sessions[q.sid].m.total
  {
    hide Reachable, Core, Backed, Owned, Linked;
    EveryRun(s);
    assert RequestOk(s, q) && SentOk(s, q.sid, q.fd, q.start, q.sent);
    OkSession(s, q.sid);
    if |s.inodes[q.fd]| == |q.sent| {
      assert s.inodes[q.fd][0..|q.sent|] == s.inodes[q.fd];
    }
  }

  // ---- When they get stuck ----

  /** The copying loop of request r wants bytes past the end of its file. */
  predicate Stalls(s: State, r: nat) {
    && r < |s.requests| && s.requests[r].Streaming? && s.requests[r].fd < |s.inodes|
    && |s.inodes[s.requests[r].fd]| <= s.requests[r].start + |s.requests[r].sent| < s.requests[r].limit
  }

  /** That is exactly when a read gives nothing and the loop goes round. */
  lemma StallsIff(s: State, r: nat)
    requires r < |s.requests| && s.requests[r].Streaming? && s.requests[r].fd < |s.inodes|
    ensures Stalls(s, r) <==>
              exists n :: CanAsk(s, s.requests[r], Copy(n)) && Answer(s, s.requests[r], Copy(n)) == s.requests[r]
  {
    var q := s.requests[r];
    if Stalls(s, r) {
      assert CanAsk(s, q, Copy(1)) && Answer(s, q, Copy(1)).sent == q.sent;
    }
    if exists n :: CanAsk(s, q, Copy(n)) && Answer(s, q, Copy(n)) == q {
      var n :| CanAsk(s, q, Copy(n)) && Answer(s, q, Copy(n)) == q;
      assert |Answer(s, q, Copy(n)).sent| == |q.sent| + |ReadFrom(s.inodes[q.fd], q.start + |q.sent|, n)|;
    }
  }

  /** Neither the end of the process nor a failure of the request's own: its client or its disk. */
  predicate Undisturbed(step: Step, r: nat) { !step.Crash? && step != Reader(r, Quit) }

  lemma StallStep(s: State, r: nat, step: Step, key: Key)
    requires Inv(s) && Enabled(s, step) && Undisturbed(step, r) && Stalls(s, r) && (key, s.requests[r].fd) in s.promoted
    ensures Stalls(Apply(s, step), r) && Apply(s, step).requests[r] == s.requests[r]
    ensures (key, s.requests[r].fd) in Apply(s, step).promoted
  {
    hide Core, RequestsOk, Effect, Next, Started;
    PromotedStays(s, step, key, s.requests[r].fd);
    if step.Reader? && step.r == r {
      assert step.ask.Copy?;
      assert Apply(s, step).requests[r].sent == s.requests[r].sent;
    } else {
      OtherRequests(s, step, r);
    }
  }

  /** Over a file that was ever an artifact there is no way out: whatever anybody does, the request stays
      where it is. */
  lemma {:induction false} StallIsForever(s: State, r: nat, steps: seq<Step>, key: Key)
    requires Inv(s) && IsRun(s, steps) && (forall step :: step in steps ==> Undisturbed(step, r))
    requires Stalls(s, r) && (key, s.requests[r].fd) in s.promoted
    ensures Stalls(After(s, steps), r) && After(s, steps).requests[r] == s.requests[r]
    decreases |steps|
  {
    hide Inv, Enabled, Apply, Stalls, Undisturbed;
    if steps != [] {
      assert Undisturbed(steps[0], r);
      StallStep(s, r, steps[0], key);
      StepKeeps(s, steps[0]);
      StallIsForever(Apply(s, steps[0]), r, steps[1..], key);
    }
  }

  // ---- Who gets stuck ----

  /** How far into the object a request gets, of what its session has announced. */
  function Wanted(s: State, q: Request): int
    requires q.Streaming? && q.sid < |s.sessions|
  {
    var available := s.sessions[q.sid].m.available;
    if q.end >= 0 && q.end + 1 < available then q.end + 1 else available
  }

  /** A reader of a file that was ever an artifact, and of a session with nothing more to announce. */
  ghost predicate ReadsPromoted(s: State, r: nat, key: Key) {
    && r < |s.requests| && s.requests[r].Streaming? && s.requests[r].sid < |s.sessions|
    && s.requests[r].fd < |s.inodes| && (key, s.requests[r].fd) in s.promoted
    && !Announces(s.sessions[s.requests[r].sid].pc)
  }

  /** Whoever reads such a file, its session has announced all it will. */
  lemma PromotedReader(s: State, r: nat, key: Key)
    requires Reachable(s) && r < |s.requests| && s.requests[r].Streaming? && (key, s.requests[r].fd) in s.promoted
    ensures ReadsPromoted(s, r, key)
  {
    hide Reachable, Core, RequestsOk, History, Local, Owned, Linked;
    EveryReader(s);
    var q := s.requests[r];
    assert ReaderOk(s, q) && q.sid < |s.sessions|;
    CoreParts(s);
    OkSession(s, q.sid);
    if s.sessions[q.sid].inode == Some(q.fd) {
      PromotedIsNotHeld(s, q.sid, key, q.fd);
    }
    NotYetReady(s, q);
  }

  lemma PromotedIsNotHeld(s: State, j: nat, key: Key, i: nat)
    requires Core(s) && j < |s.sessions| && s.sessions[j].inode == Some(i) && (key, i) in s.promoted
    ensures !s.sessions[j].pc.HoldsPart()
  {
    if s.sessions[j].pc.HoldsPart() {
      HolderHeld(s, j);
    }
  }

  lemma NotYetReady(s: State, q: Request)
    requires Inv(s) && q in s.requests && q.Streaming?
    ensures q.sid < |s.sessions| && !s.sessions[q.sid].pc.Unready()
  {
    assert RequestOk(s, q);
    assert SessionOk(s, q.sid);
  }

  lemma Limits(s: State, r: nat, key: Key)
    requires Inv(s) && ReadsPromoted(s, r, key)
    ensures var q := s.requests[r];
      && q.start + |q.sent| <= q.limit && (q.limit == q.start || q.limit <= Wanted(s, q))
      && s.sessions[q.sid].m.ready
  {
    hide Core, SentOk;
    assert RequestOk(s, s.requests[r]);
  }

  lemma FrozenStep(s: State, step: Step, j: nat)
    requires Enabled(s, step) && !step.Crash? && j < |s.sessions| && !Announces(s.sessions[j].pc)
    ensures var t := Apply(s, step);
      j < |t.sessions| && !Announces(t.sessions[j].pc) && t.sessions[j].m.available == s.sessions[j].m.available
  {
    hide Effect, Next, Answer, Announces;
    if step.Writer? {
      EffectOnward(s, s.sessions[step.j], step.work);
      if step.j == j {
        FrozenStays(s, s.sessions[j], step.work);
      }
    }
  }

  /** Short of a crash such a reader stays one, of the same bytes, and wants the same. */
  lemma PromotedStep(s: State, r: nat, step: Step, key: Key)
    requires Inv(s) && Enabled(s, step) && !step.Crash? && ReadsPromoted(s, r, key)
    requires r < |Apply(s, step).requests| && Apply(s, step).requests[r].Streaming?
    ensures ReadsPromoted(Apply(s, step), r, key)
    ensures var t, q := Apply(s, step), s.requests[r];
      && Continues(q, t.requests[r]) && q.fd < |t.inodes| && t.inodes[q.fd] == s.inodes[q.fd]
      && Wanted(t, t.requests[r]) == Wanted(s, q)
  {
    hide Inv, Apply, Enabled, Announces;
    var q := s.requests[r];
    StreamStep(s, r, step);
    PromotedStays(s, step, key, q.fd);
    FrozenStep(s, step, q.sid);
  }

  /** The file is too short for the request, which is not through yet. */
  ghost predicate FallsShort(s: State, r: nat, key: Key)
    requires ReadsPromoted(s, r, key)
  {
    var q := s.requests[r];
    |s.inodes[q.fd]| < Wanted(s, q) && q.start + |q.sent| < Wanted(s, q)
  }

  lemma {:induction false} StuckIsShort(s: State, r: nat, steps: seq<Step>, key: Key)
    requires Inv(s) && IsRun(s, steps) && CrashFree(steps) && ReadsPromoted(s, r, key) && Stalls(After(s, steps), r)
    ensures FallsShort(s, r, key)
    decreases |steps|
  {
    hide Inv, Enabled, Apply;
    if steps == [] {
      Limits(s, r, key);
    } else {
      StepKeeps(s, steps[0]);
      StreamStep(s, r, steps[0]);
      StreamsAlong(Apply(s, steps[0]), r, steps[1..]);
      PromotedStep(s, r, steps[0], key);
      StuckIsShort(Apply(s, steps[0]), r, steps[1..], key);
    }
  }

  lemma CheckStep(s: State, r: nat, key: Key)
    requires ReadsPromoted(s, r, key) && s.requests[r].start + |s.requests[r].sent| == s.requests[r].limit
    requires s.requests[r].limit < Wanted(s, s.requests[r])
    ensures Enabled(s, Reader(r, Check))
    ensures var q, t := s.requests[r], Apply(s, Reader(r, Check));
      && t == s.(requests := s.requests[r := t.requests[r]]) && t.requests[r].Streaming? && t.requests[r].limit > q.limit
      && t.requests[r] == Streaming(q.sid, q.fd, q.start, q.end, q.sent, t.requests[r].limit)
  {}

  lemma CopyStep(s: State, r: nat, n: nat, key: Key)
    requires ReadsPromoted(s, r, key) && n > 0
    requires s.requests[r].start + |s.requests[r].sent| + n <= s.requests[r].limit
    requires s.requests[r].start + |s.requests[r].sent| + n <= |s.inodes[s.requests[r].fd]|
    ensures Enabled(s, Reader(r, Copy(n)))
    ensures var q, t := s.requests[r], Apply(s, Reader(r, Copy(n)));
      && t == s.(requests := s.requests[r := t.requests[r]]) && t.requests[r].Streaming?
      && t.requests[r] == Streaming(q.sid, q.fd, q.start, q.end, t.requests[r].sent, q.limit)
      && |t.requests[r].sent| == |q.sent| + n
  {}

  lemma {:induction false} ReachStall(s: State, r: nat, key: Key) returns (steps: seq<Step>)
    requires Inv(s) && ReadsPromoted(s, r, key) && FallsShort(s, r, key)
    ensures IsRun(s, steps) && CrashFree(steps) && Stalls(After(s, steps), r)
    decreases Wanted(s, s.requests[r]) - s.requests[r].start - |s.requests[r].sent|,
              if s.requests[r].start + |s.requests[r].sent| < s.requests[r].limit then 0 else 1
  {
    hide Inv, Enabled, Apply, Stalls, Announces;
    Limits(s, r, key);
    var q, size := s.requests[r], |s.inodes[s.requests[r].fd]|;
    var offset := q.start + |q.sent|;
    if offset < q.limit && size <= offset {
      assert Stalls(s, r) by { IsStalled(s, r); }
      return [];
    }
    var step;
    if offset < q.limit {
      var n := (if q.limit < size then q.limit else size) - offset;
      step := Reader(r, Copy(n));
      CopyStep(s, r, n, key);
    } else {
      step := Reader(r, Check);
      CheckStep(s, r, key);
    }
    StepKeeps(s, step);
    var rest := ReachStall(Apply(s, step), r, key);
    steps := [step] + rest;
    assert steps[1..] == rest;
  }

  lemma IsStalled(s: State, r: nat)
    requires r < |s.requests| && s.requests[r].Streaming? && s.requests[r].fd < |s.inodes|
    requires |s.inodes[s.requests[r].fd]| <= s.requests[r].start + |s.requests[r].sent| < s.requests[r].limit
    ensures Stalls(s, r)
  {}

  /** Request r can get stuck before the process ends. */
  ghost predicate CanStall(s: State, r: nat) {
    exists steps :: IsRun(s, steps) && CrashFree(steps) && Stalls(After(s, steps), r)
  }

  /** A reader of a file that was ever an artifact can get stuck exactly when the file is shorter than what
      the reader wants, and the reader is not through yet. */
  lemma PromotedReaderStallsIff(s: State, r: nat, key: Key)
    requires Reachable(s) && r < |s.requests| && s.requests[r].Streaming? && (key, s.requests[r].fd) in s.promoted
    ensures var q := s.requests[r];
      && q.sid < |s.sessions| && q.fd < |s.inodes|
      && (CanStall(s, r) <==> |s.inodes[q.fd]| < Wanted(s, q) && q.start + |q.sent| < Wanted(s, q))
  {
    hide Reachable, Inv, Stalls, Enabled, Apply, IsRun, After, CrashFree;
    EveryRun(s);
    PromotedReader(s, r, key);
    if FallsShort(s, r, key) {
      var steps := ReachStall(s, r, key);
    }
    forall steps | IsRun(s, steps) && CrashFree(steps) && Stalls(After(s, steps), r)
      ensures FallsShort(s, r, key)
    {
      StuckIsShort(s, r, steps, key);
    }
  }

  /** A reader of a session that answers from the cached object. */
  predicate ReadsReused(s: State, r: nat) {
    r < |s.requests| && s.requests[r].Streaming? && Reuses(s, s.requests[r])
  }

  lemma ReusedWants(s: State, r: nat)
    requires Inv(s) && ReadsReused(s, r)
    ensures var q := s.requests[r];
      && q.fd < |s.inodes| && (s.sessions[q.sid].key, q.fd) in s.promoted
      && Wanted(s, q) == (if q.end < 0 then s.sessions[q.sid].m.total else q.end + 1)
      && (|s.inodes[q.fd]| < Wanted(s, q) ==> q.start + |q.sent| < Wanted(s, q))
  {
    hide Core, Backed, Owned, Linked;
    var q := s.requests[r];
    assert RequestOk(s, q) && SentOk(s, q.sid, q.fd, q.start, q.sent);
    OkSession(s, q.sid);
  }

  /** Such a reader can get stuck exactly when the object is shorter than what it asked for. */
  lemma ReusedReaderStallsIff(s: State, r: nat)
    requires Reachable(s) && ReadsReused(s, r)
    ensures var q := s.requests[r];
      && q.fd < |s.inodes|
      && (CanStall(s, r) <==> |s.inodes[q.fd]| < if q.end < 0 then s.sessions[q.sid].m.total else q.end + 1)
  {
    hide Reachable, Inv, CanStall;
    EveryRun(s);
    ReusedWants(s, r);
    PromotedReaderStallsIff(s, r, s.sessions[s.requests[r].sid].key);
  }
}
