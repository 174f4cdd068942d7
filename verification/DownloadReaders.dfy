/** Which files readers have open, and what becomes of a reader along a run: a third invariant. */
module DownloadReaders {
  import opened Records
  import opened Sequences
  import opened SessionMonitor
  import opened Downloads
  import opened DownloadInvariant
  import opened DownloadSteps
  import opened DownloadRuns
  import opened DownloadHistory
  import opened DownloadTheorems

  // ---- The invariant ----

  /** Paths lead to files made for their key only. */
  ghost predicate FilesKeyed(s: State) {
    && |s.makers| == |s.inodes|
    && (forall k :: k in s.part ==> s.part[k] < |s.makers| && s.makers[s.part[k]] == k)
    && (forall k, i :: (k, i) in s.promoted ==> i < |s.makers| && s.makers[i] == k)
  }

  predicate MadeFor(s: State, inode: Option<nat>, key: Key) {
    inode.Some? ==> inode.value < |s.makers| && s.makers[inode.value] == key
  }

  ghost predicate SessionsKeyed(s: State) {
    forall j :: 0 <= j < |s.sessions| ==> MadeFor(s, s.sessions[j].inode, s.sessions[j].key)
  }

  /** The session may still announce bytes. */
  predicate Announces(pc: Pc) { pc.Unready() || pc.Reading? || pc.Announcing? }

  /** A reader's file was made for the key of its session; and it is the session's own, unless the session
      has nothing more to announce. */
  predicate ReaderOk(s: State, q: Request) {
    q.Streaming? || q.Returned? ==>
      && q.sid < |s.sessions|
      && MadeFor(s, Some(q.fd), s.sessions[q.sid].key)
      && (s.sessions[q.sid].inode == Some(q.fd) || !Announces(s.sessions[q.sid].pc))
  }

  ghost predicate Readers(s: State) {
    && FilesKeyed(s)
    && SessionsKeyed(s)
    && forall q :: q in s.requests ==> ReaderOk(s, q)
  }

  // ---- Steps of a writer ----

  lemma OpenKeyed(s: State, x: Download)
    requires FilesKeyed(s) && x.pc.Opening?
    ensures var t := Effect(s, x, OpenPart(true));
      FilesKeyed(t) && s.makers <= t.makers && MadeFor(t, Some(PartInode(s, x.key)), x.key)
  {}

  lemma EffectKeyed(s: State, x: Download, w: Work)
    requires CanWork(x, w) && FilesKeyed(s) && MadeFor(s, x.inode, x.key)
    ensures FilesKeyed(Effect(s, x, w)) && s.makers <= Effect(s, x, w).makers
  {
    if Steady(w) {
      hide Effect;
      SteadyEffect(s, x, w);
    } else if w.OpenPart? {
      hide Effect;
      OpenKeyed(s, x);
    }
  }

  lemma NextKeyed(s: State, x: Download, w: Work)
    requires CanWork(x, w) && FilesKeyed(s) && FilesOk(s) && MadeFor(s, x.inode, x.key)
    ensures MadeFor(Effect(s, x, w), Next(s, x, w).inode, x.key) && Next(s, x, w).key == x.key
  {
    hide Effect, PartInode;
    EffectKeyed(s, x, w);
    if w == OpenPart(true) {
      OpenKeyed(s, x);
    }
  }

  /** A session with nothing more to announce has what it announced. */
  lemma FrozenStays(s: State, x: Download, w: Work)
    requires CanWork(x, w) && !Announces(x.pc)
    ensures !Announces(Next(s, x, w).pc) && Next(s, x, w).m.available == x.m.available
  {}

  lemma WriterKeyed(s: State, j: nat, w: Work)
    requires Core(s) && FilesKeyed(s) && SessionsKeyed(s) && j < |s.sessions| && CanWork(s.sessions[j], w)
    ensures var t := Apply(s, Writer(j, w)); FilesKeyed(t) && SessionsKeyed(t) && s.makers <= t.makers
  {
    hide Core, Effect, Next, FilesOk;
    var x, t := s.sessions[j], Apply(s, Writer(j, w));
    CoreParts(s);
    EffectKeyed(s, x, w);
    NextKeyed(s, x, w);
    EffectOnward(s, x, w);
    assert t.makers == Effect(s, x, w).makers;
    forall k | 0 <= k < |t.sessions|
      ensures MadeFor(t, t.sessions[k].inode, t.sessions[k].key)
    {
      assert MadeFor(s, s.sessions[k].inode, s.sessions[k].key);
    }
  }

  lemma WriterReader(s: State, j: nat, w: Work, q: Request)
    requires Inv(s) && q in s.requests && ReaderOk(s, q) && j < |s.sessions| && CanWork(s.sessions[j], w)
    requires s.makers <= Apply(s, Writer(j, w)).makers
    ensures ReaderOk(Apply(s, Writer(j, w)), q)
  {
    hide Core, Effect, Next, Local, FateOk, Backed, Owned, Linked, SentOk;
    assert RequestOk(s, q);
    WriterOnward(s, j, w);
    if q.Streaming? || q.Returned? {
      assert Grows(s.sessions[q.sid], Apply(s, Writer(j, w)).sessions[q.sid]);
      if q.sid == j && !Announces(s.sessions[j].pc) {
        FrozenStays(s, s.sessions[j], w);
      }
    }
  }

  lemma WriterKeepsReaders(s: State, j: nat, w: Work)
    requires Inv(s) && Readers(s) && j < |s.sessions| && CanWork(s.sessions[j], w)
    ensures Readers(Apply(s, Writer(j, w)))
  {
    hide Core, RequestsOk, Apply, ReaderOk, FilesKeyed, SessionsKeyed;
    var t := Apply(s, Writer(j, w));
    WriterKeyed(s, j, w);
    WriterOnward(s, j, w);
    forall q | q in t.requests ensures ReaderOk(t, q) {
      WriterReader(s, j, w, q);
    }
  }

  // ---- Steps of a request ----

  lemma OpenedReader(s: State, q: Request, start: nat, end: int)
    requires Core(s) && History(s) && FilesKeyed(s) && RequestOk(s, q) && CanAsk(s, q, OpenFile(start, end))
    ensures ReaderOk(s, Answer(s, q, OpenFile(start, end)))
  {
    hide Core, History, OpenedLater, PromotedLater, Owned, Linked;
    CoreParts(s);
    IsTraced(s, q.sid);
    OkSession(s, q.sid);
  }

  lemma AnswerReader(s: State, q: Request, a: Ask)
    requires Core(s) && History(s) && FilesKeyed(s) && RequestOk(s, q) && ReaderOk(s, q) && CanAsk(s, q, a) && !a.Join?
    ensures ReaderOk(s, Answer(s, q, a))
  {
    hide Core, History, FilesKeyed, RequestOk;
    match a {
      case OpenFile(start, end) => OpenedReader(s, q, start, end);
      case _ =>
    }
  }

  /** Sessions and files as they were, or one more session. */
  ghost predicate MoreSessions(s: State, t: State) {
    && s.sessions <= t.sessions && t.makers == s.makers && |t.inodes| == |s.inodes| && t.part == s.part
    && t.promoted == s.promoted && (forall j :: |s.sessions| <= j < |t.sessions| ==> t.sessions[j].inode == None)
  }

  lemma MoreSessionsKeyed(s: State, t: State)
    requires FilesKeyed(s) && SessionsKeyed(s) && MoreSessions(s, t)
    ensures FilesKeyed(t) && SessionsKeyed(t)
  {
    forall j | 0 <= j < |t.sessions|
      ensures MadeFor(t, t.sessions[j].inode, t.sessions[j].key)
    {
      if j < |s.sessions| {
        assert MadeFor(s, s.sessions[j].inode, s.sessions[j].key);
      }
    }
  }

  lemma MoreSessionsReader(s: State, t: State, q: Request)
    requires ReaderOk(s, q) && MoreSessions(s, t)
    ensures ReaderOk(t, q)
  {}

  lemma StartedMore(s: State, key: Key, prior: Option<nat>)
    ensures MoreSessions(s, Started(s, key, prior))
  {}

  lemma AskMore(s: State, r: nat, a: Ask)
    requires r < |s.requests| && CanAsk(s, s.requests[r], a)
    ensures MoreSessions(s, Apply(s, Reader(r, a)))
  {
    hide Answer;
  }

  lemma RequestsAfter(s: State, r: nat, a: Ask, p: Request)
    requires r < |s.requests| && CanAsk(s, s.requests[r], a) && p in Apply(s, Reader(r, a)).requests
    ensures p == Answer(s, s.requests[r], a) || p in s.requests
  {
    hide Answer;
    StartedRequests(s, if a.Join? then s.requests[r].key else "", if a.Join? then s.requests[r].prior else None);
  }

  lemma AskKeepsReaders(s: State, r: nat, a: Ask)
    requires Inv(s) && History(s) && Readers(s) && r < |s.requests| && CanAsk(s, s.requests[r], a)
    ensures Readers(Apply(s, Reader(r, a)))
  {
    hide Core, History, Apply, Answer, ReaderOk, FilesKeyed, SessionsKeyed, MoreSessions, RequestOk;
    var t, q := Apply(s, Reader(r, a)), s.requests[r];
    AskMore(s, r, a);
    MoreSessionsKeyed(s, t);
    forall p | p in t.requests ensures ReaderOk(t, p) {
      RequestsAfter(s, r, a, p);
      if p in s.requests {
        MoreSessionsReader(s, t, p);
      } else if a.Join? {
        JoinedReader(s, t, q, a);
      } else {
        AnswerReader(s, q, a);
        MoreSessionsReader(s, t, p);
      }
    }
  }

  lemma JoinedReader(s: State, t: State, q: Request, a: Ask)
    requires CanAsk(s, q, a) && a.Join?
    ensures ReaderOk(t, Answer(s, q, a))
  {}

  // ---- Other steps, and runs ----

  lemma OtherKeepsReaders(s: State, step: Step)
    requires Readers(s) && (step.Arrive? || step.Prefetch? || step.RemoveArtifact? || step.DeleteRow?)
    ensures Readers(Apply(s, step))
  {
    hide ReaderOk, FilesKeyed, SessionsKeyed, MoreSessions, Started;
    var t := Apply(s, step);
    if step.Prefetch? {
      StartedMore(s, step.key, step.prior);
      StartedRequests(s, step.key, step.prior);
    } else {
      assert MoreSessions(s, t) by { SameMore(s, t); }
    }
    MoreSessionsKeyed(s, t);
    forall q | q in t.requests ensures ReaderOk(t, q) {
      if q in s.requests {
        MoreSessionsReader(s, t, q);
      } else {
        NoReader(t, step.key);
      }
    }
  }

  lemma SameMore(s: State, t: State)
    requires t.sessions == s.sessions && t.makers == s.makers && t.inodes == s.inodes && t.part == s.part && t.promoted == s.promoted
    ensures MoreSessions(s, t)
  {}

  lemma NoReader(s: State, key: Key)
    ensures ReaderOk(s, Looking(key))
  {}

  lemma CrashKeepsReaders(s: State, step: Step)
    requires Readers(s) && step.Crash? && Enabled(s, step)
    ensures Readers(Apply(s, step))
  {
    var t := Apply(s, step);
    forall k | k in t.part ensures t.part[k] < |t.makers| && t.makers[t.part[k]] == k {
      assert k in step.part;
    }
  }

  lemma StepKeepsReaders(s: State, step: Step)
    requires Inv(s) && History(s) && Readers(s) && Enabled(s, step)
    ensures Readers(Apply(s, step))
  {
    hide Inv, History, Readers, Apply;
    match step {
      case Writer(j, w) => WriterKeepsReaders(s, j, w);
      case Reader(r, a) => AskKeepsReaders(s, r, a);
      case Crash(_, _, _, _, _) => CrashKeepsReaders(s, step);
      case _ => OtherKeepsReaders(s, step);
    }
  }

  lemma {:induction false} RunKeepsReaders(s: State, steps: seq<Step>)
    requires Inv(s) && History(s) && Readers(s) && IsRun(s, steps)
    ensures Readers(After(s, steps))
    decreases |steps|
  {
    hide Core, RequestsOk, History, Readers, Enabled, Apply;
    if steps != [] {
      StepKeeps(s, steps[0]);
      StepKeepsHistory(s, steps[0]);
      StepKeepsReaders(s, steps[0]);
      RunKeepsReaders(Apply(s, steps[0]), steps[1..]);
    }
  }

  /** All three invariants hold of every reachable state. */
  lemma EveryReader(s: State)
    requires Reachable(s)
    ensures Inv(s) && History(s) && Readers(s)
  {
    hide Inv, History;
    EveryHistory(s);
    var steps :| IsRun(EMPTY, steps) && After(EMPTY, steps) == s;
    EmptyOk();
    IsHistory(EMPTY);
    RunKeepsReaders(EMPTY, steps);
  }

  // ---- Whose bytes a request is sent ----

  /** The file of every request that streams or has streamed was made for the key it asked for. */
  lemma FileIsOfKey(s: State, q: Request)
    requires Reachable(s) && q in s.requests && (q.Streaming? || q.Returned?)
    ensures q.sid < |s.sessions| && q.fd < |s.inodes| == |s.makers| && s.makers[q.fd] == s.sessions[q.sid].key
  {
    hide Reachable, Inv, History;
    EveryReader(s);
    assert ReaderOk(s, q);
  }

  /** And only sessions of that key ever write to it: no request is sent a byte of another key. */
  lemma OnlyItsKeyWrites(s: State, step: Step, i: nat)
    requires Reachable(s) && Enabled(s, step) && !step.Crash? && i < |s.inodes|
    ensures i < |Apply(s, step).inodes| && |s.makers| == |s.inodes| && s.makers <= Apply(s, step).makers
    ensures Apply(s, step).inodes[i] != s.inodes[i] ==> step.Writer? && s.sessions[step.j].key == s.makers[i]
  {
    hide Reachable, Core, RequestsOk, History, Next, Effect, Answer;
    EveryReader(s);
    if step.Writer? {
      var x := s.sessions[step.j];
      assert MadeFor(s, x.inode, x.key);
      EffectKeyed(s, x, step.work);
      WritesOwn(s, x, step.work, i);
    }
  }

  lemma WritesOwn(s: State, x: Download, w: Work, i: nat)
    requires CanWork(x, w) && i < |s.inodes| && FilesKeyed(s) && MadeFor(s, x.inode, x.key)
    ensures i < |Effect(s, x, w).inodes|
    ensures Effect(s, x, w).inodes[i] != s.inodes[i] ==> x.key == s.makers[i]
  {}

  // ---- One reader along a run ----

  predicate SoFar(s: State, r: nat) {
    r < |s.requests| && (s.requests[r].Streaming? || s.requests[r].Returned? || s.requests[r].Over?)
  }

  /** Request q is p, further on: the same session, file and bytes asked for. */
  predicate Continues(p: Request, q: Request) {
    && (p.Streaming? || p == q) && (q.Streaming? || q.Returned?)
    && q.sid == p.sid && q.fd == p.fd && q.start == p.start && q.end == p.end && |p.sent| <= |q.sent|
  }

  lemma OtherRequests(s: State, step: Step, r: nat)
    requires Enabled(s, step) && !step.Crash? && r < |s.requests| && !(step.Reader? && step.r == r)
    ensures r < |Apply(s, step).requests| && Apply(s, step).requests[r] == s.requests[r]
  {
    hide Effect, Next, Answer;
    if step.Writer? {
      EffectOnward(s, s.sessions[step.j], step.work);
    }
  }

  lemma StreamStep(s: State, r: nat, step: Step)
    requires Enabled(s, step) && !step.Crash? && SoFar(s, r)
    ensures SoFar(Apply(s, step), r)
    ensures !Apply(s, step).requests[r].Over? ==> !s.requests[r].Over? && Continues(s.requests[r], Apply(s, step).requests[r])
  {
    hide Effect, Next, Started;
    if !(step.Reader? && step.r == r) {
      OtherRequests(s, step, r);
    }
  }

  lemma {:induction false} StreamsAlong(s: State, r: nat, steps: seq<Step>)
    requires IsRun(s, steps) && CrashFree(steps) && SoFar(s, r)
    ensures SoFar(After(s, steps), r)
    ensures !After(s, steps).requests[r].Over? ==>
              !s.requests[r].Over? && Continues(s.requests[r], After(s, steps).requests[r])
    decreases |steps|
  {
    hide Enabled, Apply;
    if steps != [] {
      StreamStep(s, r, steps[0]);
      StreamsAlong(Apply(s, steps[0]), r, steps[1..]);
    }
  }

  lemma GrowsOn(x: Download, y: Download, z: Download)
    requires Grows(x, y) && Grows(y, z)
    ensures Grows(x, z)
  {}

  lemma {:induction false} SessionAlong(s: State, j: nat, steps: seq<Step>)
    requires Inv(s) && IsRun(s, steps) && CrashFree(steps) && j < |s.sessions|
    ensures j < |After(s, steps).sessions| && Grows(s.sessions[j], After(s, steps).sessions[j])
    decreases |steps|
  {
    hide Inv, Enabled, Apply, Grows;
    if steps == [] {
      GrowsItself(s.sessions[j]);
    } else {
      StepKeeps(s, steps[0]);
      StepOnward(s, steps[0]);
      SessionAlong(Apply(s, steps[0]), j, steps[1..]);
      GrowsOn(s.sessions[j], Apply(s, steps[0]).sessions[j], After(s, steps).sessions[j]);
    }
  }

  lemma GrowsItself(x: Download)
    ensures Grows(x, x)
  {}

  lemma {:induction false} RunReaches(s: State, steps: seq<Step>)
    requires Reachable(s) && IsRun(s, steps)
    ensures Reachable(After(s, steps))
    decreases |steps|
  {
    hide Reachable, Enabled, Apply;
    if steps != [] {
      Reaches(s, steps[0]);
      RunReaches(Apply(s, steps[0]), steps[1..]);
    }
  }

  /** A reader that opened its session's own file keeps it, and has its bytes from `start` on at every later
      moment; a response that ended without an error is the part asked for, and without a range a whole
      upstream body. The one exception: the session left its file behind and a later one opened it. */
  lemma OwnReaderIsServed(s: State, r: nat, steps: seq<Step>)
    requires Reachable(s) && r < |s.requests| && s.requests[r].Streaming?
    requires s.requests[r].sid < |s.sessions| && s.sessions[s.requests[r].sid].inode == Some(s.requests[r].fd)
    requires IsRun(s, steps) && CrashFree(steps)
    ensures var e, sid := After(s, steps), s.requests[r].sid;
      && r < |e.requests| && sid < |e.sessions|
      && ((e.sessions[sid].fate == Left && OpenedLater(e.sessions, sid)) || e.requests[r].Over? || Served(e, s.requests[r], r))
  {
    hide Reachable, Inv, IsRun, After, OpenedLater, CrashFree, Grows, Served;
    var e, p := After(s, steps), s.requests[r];
    EveryRun(s);
    assert p.sid < |s.sessions| && s.sessions[p.sid].m.ready by { StreamsReady(s, p); }
    StreamsAlong(s, r, steps);
    SessionAlong(s, p.sid, steps);
    RunReaches(s, steps);
    FilesAreKept(e, p.sid);
    if !e.requests[r].Over? && p.sid !in e.emptied {
      KeepsFile(s.sessions[p.sid], e.sessions[p.sid]);
      EndsServed(e, p, r);
    }
  }

  lemma StreamsReady(s: State, q: Request)
    requires Inv(s) && q in s.requests && q.Streaming?
    ensures q.sid < |s.sessions| && s.sessions[q.sid].m.ready
  {
    assert RequestOk(s, q);
  }

  lemma KeepsFile(x: Download, y: Download)
    requires Grows(x, y) && x.m.ready
    ensures y.inode == x.inode
  {}

  /** What request r, which started as p, has been sent by now. */
  ghost predicate Served(e: State, p: Request, r: nat)
    requires p.Streaming? && r < |e.requests| && p.sid < |e.sessions|
  {
    var q, x := e.requests[r], e.sessions[p.sid];
    && Continues(p, q)
    && IsSlice(x.received, p.start, q.sent)
    && (q.Returned? && p.end >= 0 ==> p.start <= p.end < |x.received| && q.sent == x.received[p.start..p.end + 1])
    && (q.Returned? && p.end < 0 ==> q.sent == x.received && (x.key, q.sent) in e.bodies)
  }

  lemma EndsServed(e: State, p: Request, r: nat)
    requires Reachable(e) && p.Streaming? && r < |e.requests| && Continues(p, e.requests[r]) && Own(e, p.sid, p.fd)
    ensures Served(e, p, r)
  {
    hide Reachable, Inv, IsSlice;
    var q := e.requests[r];
    if q.Returned? {
      CompleteDelivery(e, q);
    }
    EveryRun(e);
    assert IsSlice(e.sessions[p.sid].received, p.start, q.sent) by { OwnSlice(e, q); }
  }

  lemma OwnSlice(s: State, q: Request)
    requires Inv(s) && q in s.requests && (q.Streaming? || q.Returned?) && Own(s, q.sid, q.fd)
    ensures IsSlice(s.sessions[q.sid].received, q.start, q.sent)
  {
    hide Core, IsSlice;
    assert RequestOk(s, q) && SentOk(s, q.sid, q.fd, q.start, q.sent);
  }

  // ---- A request along a run ----

  /** The key a request is for, as long as it is for one. */
  function KeyOf(s: State, q: Request): Option<Key> {
    match q
    case Looking(key) => Some(key)
    case Found(key, _) => Some(key)
    case Missing(key, _) => Some(key)
    case Hit(key, _) => Some(key)
    case Joined(sid) => SessionKey(s, sid)
    case Snapped(sid, _, _) => SessionKey(s, sid)
    case Streaming(sid, _, _, _, _, _) => SessionKey(s, sid)
    case Returned(sid, _, _, _, _) => SessionKey(s, sid)
    case Over => None
  }

  function SessionKey(s: State, sid: nat): Option<Key> { if sid < |s.sessions| then Some(s.sessions[sid].key) else None }

  /** A miss joins the session of the key in the map; and if there is none, a new one, which is told the size in
      the row of the stale object. */
  lemma JoinedSession(s: State, r: nat)
    requires Reachable(s) && r < |s.requests| && s.requests[r].Missing?
    ensures var q, t := s.requests[r], Apply(s, Reader(r, Join));
      && q.key in t.active && t.active[q.key] < |t.sessions| && t.sessions[t.active[q.key]].key == q.key
      && t.requests == s.requests[r := Joined(t.active[q.key])]
      && t.sessions == if q.key in s.active then s.sessions
                       else s.sessions + [Download(q.key, q.prior, Opening, false, Undecided, None, [], FRESH)]
  {
    hide Reachable, SessionOk, FilesOk, RequestsOk;
    EveryRun(s);
  }

  lemma KeysStay(s: State, step: Step, sid: nat)
    requires Inv(s) && Enabled(s, step) && !step.Crash? && sid < |s.sessions|
    ensures SessionKey(Apply(s, step), sid) == SessionKey(s, sid)
  {
    hide Inv, Enabled, Apply;
    StepOnward(s, step);
    assert Grows(s.sessions[sid], Apply(s, step).sessions[sid]);
  }

  lemma KeyStep(s: State, r: nat, step: Step)
    requires Reachable(s) && Enabled(s, step) && !step.Crash? && r < |s.requests|
    ensures var t := Apply(s, step);
      && r < |t.requests| && (s.requests[r] == Over ==> t.requests[r] == Over)
      && (t.requests[r] == Over || KeyOf(t, t.requests[r]) == KeyOf(s, s.requests[r]))
  {
    hide Reachable, Core, Effect, Next, RequestOk, Started;
    EveryRun(s);
    var q := s.requests[r];
    if step.Reader? && step.r == r {
      if step.ask.Join? {
        JoinedSession(s, r);
      }
    } else {
      OtherRequests(s, step, r);
      assert RequestOk(s, q);
      if q.Joined? || q.Snapped? || q.Streaming? || q.Returned? {
        SessionBound(s, q);
        KeysStay(s, step, q.sid);
      }
    }
  }

  lemma SessionBound(s: State, q: Request)
    requires RequestOk(s, q) && (q.Joined? || q.Snapped? || q.Streaming? || q.Returned?)
    ensures q.sid < |s.sessions|
  {}

  /** Whatever becomes of a request short of a crash, it is for the key it asked for until it is over: it finds
      that key's row and artifact, and joins and streams sessions of that key only. */
  lemma {:induction false} KeyIsKept(s: State, r: nat, steps: seq<Step>)
    requires Reachable(s) && IsRun(s, steps) && CrashFree(steps) && r < |s.requests|
    ensures r < |After(s, steps).requests|
    ensures s.requests[r] == Over ==> After(s, steps).requests[r] == Over
    ensures var q := After(s, steps).requests[r]; q == Over || KeyOf(After(s, steps), q) == KeyOf(s, s.requests[r])
    decreases |steps|
  {
    hide Reachable, Enabled, Apply, KeyOf;
    if steps != [] {
      Reaches(s, steps[0]);
      KeyStep(s, r, steps[0]);
      KeyIsKept(Apply(s, steps[0]), r, steps[1..]);
    }
  }

  /** A request that opens its file for the bytes start..end streams those, from that file, until it is over. */
  lemma AskedIsStreamed(s: State, r: nat, start: nat, end: int, steps: seq<Step>)
    requires Reachable(s) && r < |s.requests| && CanAsk(s, s.requests[r], OpenFile(start, end))
    requires IsRun(Apply(s, Reader(r, OpenFile(start, end))), steps) && CrashFree(steps)
    ensures var e, p := After(Apply(s, Reader(r, OpenFile(start, end))), steps), s.requests[r];
      && p.sid < |s.sessions|
      && SoFar(e, r)
      && (!e.requests[r].Over? ==>
            && Lookup(s, s.sessions[p.sid].key, p.path) == Some(e.requests[r].fd)
            && e.requests[r].sid == p.sid && e.requests[r].start == start && e.requests[r].end == end)
  {
    hide Reachable, IsRun, After, CrashFree;
    StreamsAlong(Apply(s, Reader(r, OpenFile(start, end))), r, steps);
  }
}
