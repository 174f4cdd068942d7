/** Every run of the shared downloads keeps the invariant. */
module DownloadRuns {
  import opened Records
  import opened Sequences
  import opened SessionMonitor
  import opened Downloads
  import opened DownloadInvariant
  import opened DownloadSteps

  // ---- Writers ----

  lemma WriterCore(s: State, j: nat, w: Work)
    requires Core(s) && j < |s.sessions| && CanWork(s.sessions[j], w)
    ensures Core(Apply(s, Writer(j, w)))
  {
    hide Core, Apply, Effect, Next, Enabled;
    match w {
      case OpenPart(ok) => if ok { OpenKeeps(s, j); } else { SteadyKeeps(s, j, w); }
      case ReadChunk(_) => AppendKeeps(s, j, w);
      case WriteFails(_) => AppendKeeps(s, j, w);
      case Rename(ok) => if ok { RenameKeeps(s, j); } else { UnlinkKeeps(s, j, w); }
      case Unlink(_) => UnlinkKeeps(s, j, w);
      case RemovePart(_) => UnlinkKeeps(s, j, w);
      case Reuse => ReuseKeeps(s, j);
      case Leave => LeaveKeeps(s, j);
      case _ => SteadyKeeps(s, j, w);
    }
  }

  lemma EffectOnward(s: State, x: Download, w: Work)
    requires CanWork(x, w)
    ensures var t := Effect(s, x, w);
      t.sessions == s.sessions && t.requests == s.requests && s.promoted <= t.promoted && s.emptied <= t.emptied
  {
    if Steady(w) {
      SteadyEffect(s, x, w);
    }
  }

  lemma EffectLeaves(s: State, x: Download, w: Work, i: nat)
    requires CanWork(x, w) && i < |s.inodes| && Lookup(s, x.key, PartFile) != Some(i)
    requires w.ReadChunk? || w.WriteFails? ==> x.inode != Some(i)
    ensures i < |Effect(s, x, w).inodes| && Effect(s, x, w).inodes[i] == s.inodes[i]
  {}

  lemma WriterLeavesPromoted(s: State, j: nat, w: Work, key: Key, i: nat)
    requires Core(s) && j < |s.sessions| && CanWork(s.sessions[j], w) && (key, i) in s.promoted
    ensures var t := Apply(s, Writer(j, w)); i < |s.inodes| && i < |t.inodes| && t.inodes[i] == s.inodes[i]
  {
    hide Effect, Next, SessionOk;
    if w.ReadChunk? || w.WriteFails? {
      HolderHeld(s, j);
    }
    EffectLeaves(s, s.sessions[j], w, i);
  }

  lemma WriterOnward(s: State, j: nat, w: Work)
    requires Core(s) && j < |s.sessions| && CanWork(s.sessions[j], w)
    ensures var t := Apply(s, Writer(j, w)); t.requests == s.requests && Onward(s, t)
  {
    hide Core, Effect, Next, Local, FateOk, Backed, Owned, Linked;
    var t := Apply(s, Writer(j, w));
    OkSession(s, j);
    EffectOnward(s, s.sessions[j], w);
    NextGrows(s, s.sessions[j], w);
    forall key, i | (key, i) in s.promoted && i < |s.inodes|
      ensures i < |t.inodes| && t.inodes[i] == s.inodes[i]
    {
      WriterLeavesPromoted(s, j, w, key, i);
    }
  }

  lemma RequestsStay(s: State, t: State)
    requires RequestsOk(s) && Onward(s, t) && t.requests == s.requests
    ensures RequestsOk(t)
  {
    hide RequestOk, Onward;
    forall q | q in t.requests ensures RequestOk(t, q) {
      RequestStays(s, t, q);
    }
  }

  lemma WriterKeeps(s: State, j: nat, w: Work)
    requires Inv(s) && j < |s.sessions| && CanWork(s.sessions[j], w)
    ensures Inv(Apply(s, Writer(j, w)))
  {
    hide Core, Apply, RequestsOk, Onward;
    WriterCore(s, j, w);
    WriterOnward(s, j, w);
    RequestsStay(s, Apply(s, Writer(j, w)));
  }

  // ---- A new session ----

  lemma StartedActive(s: State, key: Key, prior: Option<nat>)
    requires ActiveOk(s)
    ensures ActiveOk(Started(s, key, prior)) && key in Started(s, key, prior).active
  {}

  lemma StartedHeld(s: State, key: Key, prior: Option<nat>)
    requires ActiveOk(s)
    ensures forall k :: Held(Started(s, key, prior), k) == Held(s, k)
  {}

  lemma StartedSession(s: State, key: Key, prior: Option<nat>, k: nat)
    requires Core(s) && k < |Started(s, key, prior).sessions|
    ensures SessionOk(Started(s, key, prior), k)
  {
    hide Held, FilesOk, ActiveOk, Core;
    CoreParts(s);
    StartedHeld(s, key, prior);
    EmptiedBound(s);
    if k < |s.sessions| {
      OkSession(s, k);
    }
  }

  lemma StartedKeeps(s: State, key: Key, prior: Option<nat>)
    requires Inv(s)
    ensures Inv(Started(s, key, prior))
  {
    hide Core, FilesOk, ActiveOk, SessionOk, RequestsOk;
    var t := Started(s, key, prior);
    CoreParts(s);
    StartedActive(s, key, prior);
    assert FilesOk(t) by { FilesSame(s, t); }
    forall k | 0 <= k < |t.sessions| ensures SessionOk(t, k) {
      StartedSession(s, key, prior, k);
    }
    IsCore(t);
    assert Onward(s, t);
    RequestsStay(s, t);
  }

  // ---- Requests ----

  /** Reading from the session's own file gives the bytes it received, all that were asked for. */
  lemma CopiedBytes(s: State, sid: nat, fd: nat, offset: nat, n: nat)
    requires Core(s) && Own(s, sid, fd) && offset + n <= s.sessions[sid].m.available
    ensures fd < |s.inodes| && offset + n <= |s.sessions[sid].received|
    ensures ReadFrom(s.inodes[fd], offset, n) == s.sessions[sid].received[offset..offset + n]
  {
    hide Core;
    OkSession(s, sid);
    var received, file := s.sessions[sid].received, s.inodes[fd];
    assert received <= file && offset + n <= |received|;
    assert file[offset..offset + n] == received[offset..offset + n];
  }

  /** Reading a file goes on where what was sent ends. */
  lemma ReadSlice(file: Bytes, start: nat, sent: Bytes, n: nat)
    requires IsSlice(file, start, sent)
    ensures IsSlice(file, start, sent + ReadFrom(file, start + |sent|, n))
  {
    var more := ReadFrom(file, start + |sent|, n);
    if more == [] {
      assert sent + more == sent;
    } else {
      SliceMore(file, start, sent, more);
    }
  }

  lemma CopySent(s: State, q: Request, n: nat)
    requires Core(s) && RequestOk(s, q) && CanAsk(s, q, Copy(n))
    ensures SentOk(s, q.sid, q.fd, q.start, q.sent + ReadFrom(s.inodes[q.fd], q.start + |q.sent|, n))
    ensures Own(s, q.sid, q.fd) ==> |ReadFrom(s.inodes[q.fd], q.start + |q.sent|, n)| == n
  {
    hide Core, IsSlice, ReadFrom;
    var offset := q.start + |q.sent|;
    if Own(s, q.sid, q.fd) {
      CopiedBytes(s, q.sid, q.fd, offset, n);
      SliceMore(s.sessions[q.sid].received, q.start, q.sent, ReadFrom(s.inodes[q.fd], offset, n));
    }
    if s.sessions[q.sid].fate == Dropped {
      ReadSlice(s.inodes[q.fd], q.start, q.sent, n);
    }
  }

  lemma CopyOk(s: State, q: Request, n: nat)
    requires Core(s) && RequestOk(s, q) && CanAsk(s, q, Copy(n))
    ensures RequestOk(s, Answer(s, q, Copy(n)))
    ensures Own(s, q.sid, q.fd) ==> |Answer(s, q, Copy(n)).sent| == |q.sent| + n
  {
    hide Core, SentOk;
    CopySent(s, q, n);
  }

  lemma OpenOk(s: State, q: Request, start: nat, end: int)
    requires Core(s) && RequestOk(s, q) && CanAsk(s, q, OpenFile(start, end))
    ensures RequestOk(s, Answer(s, q, OpenFile(start, end)))
  {
    CoreParts(s);
  }

  lemma CheckOk(s: State, q: Request)
    requires Core(s) && RequestOk(s, q) && CanAsk(s, q, Check)
    ensures RequestOk(s, Answer(s, q, Check))
  {
    hide Core, SentOk, FateOk, Backed, Owned, Linked;
    OkSession(s, q.sid);
  }

  lemma SnapshotOk(s: State, q: Request)
    requires Core(s) && RequestOk(s, q) && CanAsk(s, q, Snapshot)
    ensures RequestOk(s, Answer(s, q, Snapshot))
  {
    hide Core, Backed, Owned, Linked;
    OkSession(s, q.sid);
  }

  lemma HitOk(s: State, q: Request, ok: bool, current: bool)
    requires Core(s) && CanAsk(s, q, OpenHit(ok, current))
    ensures RequestOk(s, Answer(s, q, OpenHit(ok, current)))
  {}

  lemma JoinOk(s: State, q: Request)
    requires Core(s) && CanAsk(s, q, Join)
    ensures q.Missing? && RequestOk(Started(s, q.key, q.prior), Answer(s, q, Join))
  {}

  lemma AnswerOk(s: State, q: Request, a: Ask)
    requires Core(s) && RequestOk(s, q) && CanAsk(s, q, a) && !a.Join?
    ensures RequestOk(s, Answer(s, q, a))
  {
    hide Core;
    match a {
      case FindRow =>
      case OpenHit(ok, current) => HitOk(s, q, ok, current);
      case Snapshot => SnapshotOk(s, q);
      case OpenFile(start, end) => OpenOk(s, q, start, end);
      case Check => CheckOk(s, q);
      case Copy(n) => CopyOk(s, q, n);
      case Quit =>
    }
  }

  lemma SameSessions(s: State, t: State)
    requires t.sessions == s.sessions && t.promoted == s.promoted && t.emptied == s.emptied && t.inodes == s.inodes
    ensures Onward(s, t)
  {}

  lemma SetRequestKeeps(s: State, r: nat, q: Request)
    requires Inv(s) && r < |s.requests| && RequestOk(s, q)
    ensures Inv(s.(requests := s.requests[r := q]))
  {
    hide Core, RequestOk;
    var t := s.(requests := s.requests[r := q]);
    CoreSame(s, t);
    forall p | p in t.requests ensures RequestOk(t, p) {
      assert RequestOk(s, p);
      RequestStays(s, t, p) by { SameSessions(s, t); }
    }
  }

  lemma CoreSame(s: State, t: State)
    requires Core(s) && t == s.(requests := t.requests)
    ensures Core(t)
  {
    hide Core;
    CoreParts(s);
    assert FilesOk(t) by { FilesSame(s, t); }
    forall k | 0 <= k < |t.sessions| ensures SessionOk(t, k) {
      OkSession(s, k);
      assert forall key :: Held(t, key) == Held(s, key);
    }
    IsCore(t);
  }

  lemma ReaderKeeps(s: State, r: nat, a: Ask)
    requires Inv(s) && r < |s.requests| && CanAsk(s, s.requests[r], a)
    ensures Inv(Apply(s, Reader(r, a)))
  {
    hide Core, CanAsk, Answer, RequestOk, Started;
    var q := s.requests[r];
    assert RequestOk(s, q);
    if a.Join? {
      JoinOk(s, q);
      StartedKeeps(s, q.key, q.prior);
      StartedRequests(s, q.key, q.prior);
      SetRequestKeeps(Started(s, q.key, q.prior), r, Answer(s, q, a));
    } else {
      AnswerOk(s, q, a);
      SetRequestKeeps(s, r, Answer(s, q, a));
    }
  }

  lemma StartedRequests(s: State, key: Key, prior: Option<nat>)
    ensures Started(s, key, prior).requests == s.requests
  {}

  lemma ArriveKeeps(s: State, key: Key)
    requires Inv(s)
    ensures Inv(Apply(s, Arrive(key)))
  {
    hide Core, RequestOk;
    var t := Apply(s, Arrive(key));
    CoreSame(s, t);
    forall p | p in t.requests ensures RequestOk(t, p) {
      if p in s.requests {
        RequestStays(s, t, p) by { SameSessions(s, t); }
      } else {
        assert p == Looking(key);
        LookingOk(t, key);
      }
    }
  }

  lemma LookingOk(s: State, key: Key)
    ensures RequestOk(s, Looking(key))
  {}

  // ---- Cleanup and restart ----

  lemma CleanupParts(s: State, step: Step)
    requires FilesOk(s) && ActiveOk(s) && (step.RemoveArtifact? || step.DeleteRow?)
    ensures var t := Apply(s, step);
      FilesOk(t) && ActiveOk(t) && t.sessions == s.sessions && t.requests == s.requests
      && t.promoted == s.promoted && t.emptied == s.emptied && t.inodes == s.inodes
  {}

  lemma CleanupSession(s: State, step: Step, k: nat)
    requires Core(s) && (step.RemoveArtifact? || step.DeleteRow?) && k < |s.sessions|
    ensures SessionOk(Apply(s, step), k)
  {
    hide Core, Local, FilesOk, ActiveOk;
    OkSession(s, k);
    assert forall key :: Held(Apply(s, step), key) == Held(s, key);
  }

  lemma CleanupKeeps(s: State, step: Step)
    requires Inv(s) && (step.RemoveArtifact? || step.DeleteRow?)
    ensures Inv(Apply(s, step))
  {
    hide Core, RequestsOk, SessionOk, FilesOk, ActiveOk, Apply;
    var t := Apply(s, step);
    CoreParts(s);
    CleanupParts(s, step);
    forall k | 0 <= k < |t.sessions| ensures SessionOk(t, k) {
      CleanupSession(s, step, k);
    }
    IsCore(t);
    SameSessions(s, t);
    RequestsStay(s, t);
  }

  lemma CrashKeeps(s: State, step: Step)
    requires Inv(s) && step.Crash? && Enabled(s, step)
    ensures Inv(Apply(s, step))
  {
    var t := Apply(s, step);
    forall k, i | (k, i) in t.promoted ensures i < |t.inodes| && i in t.synced && (k, t.inodes[i]) in t.bodies {
      assert (k, i) in s.promoted;
    }
    assert FilesOk(t);
  }

  // ---- Runs ----

  lemma StepKeeps(s: State, step: Step)
    requires Inv(s) && Enabled(s, step)
    ensures Inv(Apply(s, step))
  {
    hide Inv, Apply;
    match step {
      case Writer(j, w) => WriterKeeps(s, j, w);
      case Reader(r, a) => ReaderKeeps(s, r, a);
      case Arrive(key) => ArriveKeeps(s, key);
      case Prefetch(key, prior) => StartedKeeps(s, key, prior); AppliesPrefetch(s, key, prior);
      case Crash(_, _, _, _, _) => CrashKeeps(s, step);
      case _ => CleanupKeeps(s, step);
    }
  }

  lemma AppliesPrefetch(s: State, key: Key, prior: Option<nat>)
    ensures Apply(s, Prefetch(key, prior)) == Started(s, key, prior)
  {}

  ghost predicate IsRun(s: State, steps: seq<Step>)
    decreases |steps|
  {
    steps == [] || (Enabled(s, steps[0]) && IsRun(Apply(s, steps[0]), steps[1..]))
  }

  ghost function After(s: State, steps: seq<Step>): State
    requires IsRun(s, steps)
    decreases |steps|
  {
    if steps == [] then s else After(Apply(s, steps[0]), steps[1..])
  }

  /** The process has not ended. */
  ghost predicate CrashFree(steps: seq<Step>) { forall step :: step in steps ==> !step.Crash? }

  lemma {:induction false} RunKeeps(s: State, steps: seq<Step>)
    requires Inv(s) && IsRun(s, steps)
    ensures Inv(After(s, steps))
    decreases |steps|
  {
    hide Inv, Enabled, Apply;
    if steps != [] {
      StepKeeps(s, steps[0]);
      RunKeeps(Apply(s, steps[0]), steps[1..]);
    }
  }

  lemma EmptyOk()
    ensures Inv(EMPTY)
  {}

  ghost predicate Reachable(s: State) { exists steps :: IsRun(EMPTY, steps) && After(EMPTY, steps) == s }

  /** Whatever writers, requests, prefetches, cleanups and restarts do, in whatever order. */
  lemma EveryRun(s: State)
    requires Reachable(s)
    ensures Inv(s)
  {
    hide Inv;
    var steps :| IsRun(EMPTY, steps) && After(EMPTY, steps) == s;
    EmptyOk();
    RunKeeps(EMPTY, steps);
  }

  lemma {:induction false} Extended(s: State, steps: seq<Step>, step: Step)
    requires IsRun(s, steps) && Enabled(After(s, steps), step)
    ensures IsRun(s, steps + [step]) && After(s, steps + [step]) == Apply(After(s, steps), step)
    decreases |steps|
  {
    hide Enabled, Apply;
    if steps == [] {
      assert [step][1..] == [];
    } else {
      assert (steps + [step])[1..] == steps[1..] + [step];
      Extended(Apply(s, steps[0]), steps[1..], step);
    }
  }

  lemma Reaches(s: State, step: Step)
    requires Reachable(s) && Enabled(s, step)
    ensures Reachable(Apply(s, step))
  {
    hide Enabled, Apply;
    var steps :| IsRun(EMPTY, steps) && After(EMPTY, steps) == s;
    Extended(EMPTY, steps, step);
  }
}
