/** What the shared downloads guarantee over whole runs, and where they do not. */
module DownloadTheorems {
  import opened Records
  import opened Sequences
  import opened SessionMonitor
  import opened Downloads
  import opened DownloadInvariant
  import opened DownloadSteps
  import opened DownloadRuns
  import opened DownloadHistory
  import Follower = Streaming

  // ---- Artifacts ----

  /** At every moment, and after any crash and restart, a file of the artifacts is the whole body of a
      successful response for its key. */
  lemma ArtifactsAreWhole(s: State, key: Key)
    requires Reachable(s) && key in s.artifact
    ensures s.artifact[key] < |s.inodes| && (key, s.inodes[s.artifact[key]]) in s.bodies
  {
    hide Reachable, SessionOk, ActiveOk, RequestsOk;
    EveryRun(s);
    assert (key, s.artifact[key]) in s.promoted;
  }

  /** A file that was ever an artifact never changes again. */
  lemma PromotedStays(s: State, step: Step, key: Key, i: nat)
    requires Inv(s) && Enabled(s, step) && (key, i) in s.promoted
    ensures var t := Apply(s, step); (key, i) in t.promoted && i < |t.inodes| && t.inodes[i] == s.inodes[i]
  {
    hide Core, Next, Effect, RequestsOk;
    CoreParts(s);
    if step.Writer? {
      WriterLeavesPromoted(s, step.j, step.work, key, i);
      WriterOnward(s, step.j, step.work);
    }
  }

  lemma {:induction false} PromotedStaysAlong(s: State, steps: seq<Step>, key: Key, i: nat)
    requires Inv(s) && IsRun(s, steps) && (key, i) in s.promoted && i < |s.inodes|
    ensures i < |After(s, steps).inodes| && After(s, steps).inodes[i] == s.inodes[i]
    decreases |steps|
  {
    hide Inv, Enabled, Apply;
    if steps != [] {
      StepKeeps(s, steps[0]);
      PromotedStays(s, steps[0], key, i);
      PromotedStaysAlong(Apply(s, steps[0]), steps[1..], key, i);
    }
  }

  lemma HitIsPromoted(s: State, r: nat)
    requires Inv(s) && r < |s.requests| && s.requests[r].Hit?
    ensures var key, fd := s.requests[r].key, s.requests[r].fd;
      (key, fd) in s.promoted && fd < |s.inodes| && (key, s.inodes[fd]) in s.bodies
  {
    assert RequestOk(s, s.requests[r]);
  }

  /** A cache hit that opened its file is served a whole object, and the same bytes however long it
      reads, cleaned up, replaced or not. */
  lemma HitServesWhole(s: State, r: nat, steps: seq<Step>)
    requires Reachable(s) && r < |s.requests| && s.requests[r].Hit? && IsRun(s, steps)
    ensures var key, fd := s.requests[r].key, s.requests[r].fd;
      fd < |s.inodes| && (key, s.inodes[fd]) in s.bodies
      && fd < |After(s, steps).inodes| && After(s, steps).inodes[fd] == s.inodes[fd]
  {
    hide Reachable, Inv, Enabled, Apply;
    EveryRun(s);
    HitIsPromoted(s, r);
    PromotedStaysAlong(s, steps, s.requests[r].key, s.requests[r].fd);
  }

  /** The row that a finished download records has the size of its artifact. */
  lemma RecordedSize(s: State, j: nat)
    requires Reachable(s) && j < |s.sessions| && s.sessions[j].pc.Recording?
    ensures var key, t := s.sessions[j].key, Apply(s, Writer(j, Work.Record(true)));
      key in t.rows && (key in t.artifact ==> t.artifact[key] < |t.inodes| && t.rows[key] == |t.inodes[t.artifact[key]]|)
  {
    hide Reachable;
    EveryRun(s);
    OkSession(s, j);
  }

  // ---- What changes paths and rows, and what a request finds ----

  function ArtifactOf(s: State, key: Key): Option<nat> { if key in s.artifact then Some(s.artifact[key]) else None }

  function RowOf(s: State, key: Key): Option<nat> { if key in s.rows then Some(s.rows[key]) else None }

  /** A step of a writer of the key. */
  predicate IsWork(s: State, step: Step, key: Key, w: Work) {
    step.Writer? && step.work == w && step.j < |s.sessions| && s.sessions[step.j].key == key
  }

  /** Short of a crash, an artifact appears or is replaced exactly when a session of the key renames its part
      file, which then is the artifact, and goes exactly when it is cleaned up. */
  lemma ArtifactChangesIff(s: State, step: Step, key: Key)
    requires Inv(s) && Enabled(s, step) && !step.Crash?
    ensures ArtifactOf(Apply(s, step), key) != ArtifactOf(s, key) <==>
              IsWork(s, step, key, Work.Rename(true)) || (step == RemoveArtifact(key) && key in s.artifact)
    ensures IsWork(s, step, key, Work.Rename(true)) ==>
              ArtifactOf(Apply(s, step), key) == s.sessions[step.j].inode && s.sessions[step.j].inode.Some?
    ensures step == RemoveArtifact(key) ==> ArtifactOf(Apply(s, step), key) == None
  {
    hide Inv, Next, Answer;
    if step.Writer? {
      hide Effect;
      ArtifactEffect(s, s.sessions[step.j], step.work, key);
      if step.work == Work.Rename(true) {
        RenamedPart(s, step.j);
      }
    }
  }

  lemma ArtifactEffect(s: State, x: Download, w: Work, key: Key)
    requires CanWork(x, w)
    ensures !(w == Work.Rename(true) && x.key == key) ==> ArtifactOf(Effect(s, x, w), key) == ArtifactOf(s, key)
    ensures w == Work.Rename(true) && key == x.key && key in s.part ==> ArtifactOf(Effect(s, x, w), key) == Some(s.part[key])
  {}

  lemma RenamedPart(s: State, j: nat)
    requires Inv(s) && j < |s.sessions| && s.sessions[j].pc.Renaming?
    ensures var x := s.sessions[j];
      x.key in s.part && x.inode == Some(s.part[x.key]) && ArtifactOf(s, x.key) != x.inode
  {
    hide RequestsOk, Owned, Linked;
    OkSession(s, j);
  }

  /** Short of a crash, a row is written exactly when a session of the key records its object, and goes exactly
      when it is deleted. */
  lemma RowChangesIff(s: State, step: Step, key: Key)
    requires Enabled(s, step) && !step.Crash?
    ensures IsWork(s, step, key, Work.Record(true)) ==> RowOf(Apply(s, step), key) == Some(s.sessions[step.j].m.available)
    ensures step == DeleteRow(key) ==> RowOf(Apply(s, step), key) == None
    ensures !IsWork(s, step, key, Work.Record(true)) && step != DeleteRow(key) ==> RowOf(Apply(s, step), key) == RowOf(s, key)
  {
    hide Next, Answer;
    if step.Writer? {
      hide Effect;
      RowEffect(s, s.sessions[step.j], step.work, key);
    }
  }

  lemma RowEffect(s: State, x: Download, w: Work, key: Key)
    requires CanWork(x, w)
    ensures RowOf(Effect(s, x, w), key)
         == if w == Work.Record(true) && x.key == key then Some(x.m.available) else RowOf(s, key)
  {}

  /** A request finds its object exactly when there is a row, its artifact can be opened and is current; a stale
      one leaves the size of the row for the session that follows, and anything else leaves nothing. */
  lemma FoundIff(s: State, r: nat, ok: bool, current: bool)
    requires r < |s.requests| && s.requests[r].Looking?
    requires ok ==> Lookup(s, s.requests[r].key, ArtifactFile).Some?
    ensures var key, t := s.requests[r].key, Apply(s, Reader(r, FindRow));
      && r < |t.requests|
      && (key !in s.rows ==> t.requests[r] == Missing(key, None))
      && (key in s.rows ==>
            && Enabled(t, Reader(r, OpenHit(ok, current)))
            && Apply(t, Reader(r, OpenHit(ok, current))).requests[r]
               == if ok && current then Hit(key, s.artifact[key])
                  else Missing(key, if ok then Some(s.rows[key]) else None))
  {}

  // ---- The sessions map ----

  /** Downloads that have not ended and entries of the sessions map are in bijection; so there is at most
      one of a key. */
  lemma OneDownloadPerKey(s: State, j: nat)
    requires Reachable(s) && j < |s.sessions|
    ensures !s.sessions[j].pc.Gone? <==> s.sessions[j].key in s.active && s.active[s.sessions[j].key] == j
    ensures forall key :: key in s.active ==> s.active[key] < |s.sessions| && s.sessions[s.active[key]].key == key
  {
    hide Reachable, SessionOk, FilesOk, RequestsOk;
    EveryRun(s);
  }

  /** A request that misses while its key is being downloaded shares that download and starts none. */
  lemma JoinShares(s: State, r: nat, j: nat)
    requires Reachable(s) && r < |s.requests| && s.requests[r].Missing? && j < |s.sessions|
    requires s.sessions[j].key == s.requests[r].key && !s.sessions[j].pc.Gone?
    ensures var t := Apply(s, Reader(r, Join));
      t.sessions == s.sessions && t.active == s.active && t.requests[r] == Joined(j)
  {
    hide Reachable, SessionOk, FilesOk, RequestsOk;
    EveryRun(s);
  }

  /** A session loses its file to truncation exactly when its own remove or rename of it failed and a later
      session of the key has opened the part file; otherwise the file has everything it received. */
  lemma FilesAreKept(s: State, j: nat)
    requires Reachable(s) && j < |s.sessions|
    ensures j in s.emptied <==> s.sessions[j].fate == Left && OpenedLater(s.sessions, j)
    ensures s.sessions[j].inode.Some? ==>
              var i := s.sessions[j].inode.value;
              i < |s.inodes| && (Own(s, j, i) <==> j !in s.emptied) && (Own(s, j, i) ==> s.sessions[j].received <= s.inodes[i])
  {
    hide Reachable, FilesOk, ActiveOk, RequestsOk, Owned, Linked, History, OpenedLater;
    EveryHistory(s);
    IsTraced(s, j);
    OkSession(s, j);
  }

  // ---- Readers ----

  /** What is announced is in the session's own file: a read there gives all that was asked for, and the
      copying loop ends. Over any file it does exactly when the file has that much. */
  lemma ReadsMakeProgress(s: State, r: nat, n: nat)
    requires Reachable(s) && r < |s.requests| && CanAsk(s, s.requests[r], Copy(n))
    ensures var q := s.requests[r];
      && q.sid < |s.sessions|
      && (Own(s, q.sid, q.fd) ==>
            s.sessions[q.sid].m.available <= |s.inodes[q.fd]| && |Answer(s, q, Copy(n)).sent| == |q.sent| + n)
      && (|Answer(s, q, Copy(n)).sent| == |q.sent| + n <==> q.start + |q.sent| + n <= |s.inodes[q.fd]|)
  {
    hide Reachable, Core, SentOk;
    EveryRun(s);
    assert RequestOk(s, s.requests[r]);
    CopyOk(s, s.requests[r], n);
    OkSession(s, s.requests[r].sid);
  }

  /** Whatever happens meanwhile, a reader of its session's own file has sent exactly the session's bytes
      from `start` on. */
  lemma ReaderBytes(s: State, q: Request)
    requires Reachable(s) && q in s.requests && q.Streaming? && Own(s, q.sid, q.fd) && q.sent != []
    ensures q.start + |q.sent| <= |s.sessions[q.sid].received|
    ensures q.sent == s.sessions[q.sid].received[q.start..q.start + |q.sent|]
  {
    hide Reachable, Core;
    EveryRun(s);
    assert RequestOk(s, q) && SentOk(s, q.sid, q.fd, q.start, q.sent);
  }

  /** A response that ended without an error is as long as its headers said, whatever file it read. */
  lemma AnnouncedLength(s: State, q: Request)
    requires Reachable(s) && q in s.requests && q.Returned?
    ensures q.sid < |s.sessions|
    ensures q.end >= 0 ==> q.start <= q.end < s.sessions[q.sid].m.total && |q.sent| == q.end - q.start + 1
    ensures q.end < 0 && s.sessions[q.sid].m.total >= 0 ==> |q.sent| == s.sessions[q.sid].m.total
  {
    hide Reachable, Core, Linked, Owned, Backed;
    EveryRun(s);
    assert RequestOk(s, q);
    OkSession(s, q.sid);
  }

  /** A response over its session's own file that ended without an error is the part of the body asked
      for; without a range it is a whole upstream body. */
  lemma CompleteDelivery(s: State, q: Request)
    requires Reachable(s) && q in s.requests && q.Returned? && Own(s, q.sid, q.fd)
    ensures var x := s.sessions[q.sid];
      && (q.end >= 0 ==> q.start <= q.end < |x.received| && q.sent == x.received[q.start..q.end + 1])
      && (q.end < 0 ==> q.sent == x.received && (x.key, q.sent) in s.bodies)
  {
    hide Reachable, Core, Linked, Owned;
    EveryRun(s);
    assert RequestOk(s, q);
    OkSession(s, q.sid);
    assert SentOk(s, q.sid, q.fd, q.start, q.sent);
  }

  // ---- What streamGrowingFile relies on ----

  /** What has become of a reader on its own: its context, its client, its disk. */
  datatype Trouble = Trouble(cancelled: bool, clientGone: bool, diskBroken: bool)

  /** A session as a reader of its own file meets it. */
  function View(x: Download, own: Trouble): Follower.State {
    Follower.State(x.received, x.m.available, x.m.total, x.m.complete, x.m.failed, own.cancelled, own.clientGone, own.diskBroken)
  }

  lemma ViewIsValid(s: State, j: nat, own: Trouble)
    requires Reachable(s) && j < |s.sessions| && s.sessions[j].inode.Some?
    ensures View(s.sessions[j], own).Valid()
  {
    hide Reachable, Core, Owned, Linked, Backed;
    EveryRun(s);
    OkSession(s, j);
  }

  lemma StepOnward(s: State, step: Step)
    requires Inv(s) && Enabled(s, step) && !step.Crash?
    ensures Onward(s, Apply(s, step))
  {
    hide Core, RequestsOk, Effect, Next;
    if step.Writer? {
      WriterOnward(s, step.j, step.work);
    }
  }

  /** Nothing changed for a reader, or one of the moves of its world was made. */
  ghost predicate Moves(v: Follower.State, w: Follower.State) { w == v || exists m :: w == v.After(m) }

  lemma WorkMoves(s: State, x: Download, w: Work, own: Trouble)
    requires Local(x) && CanWork(x, w) && x.m.ready && x.inode.Some?
    ensures Moves(View(x, own), View(Next(s, x, w), own))
  {
    var v, u := View(x, own), View(Next(s, x, w), own);
    if w.ReadChunk? {
      assert u == v.After(Follower.Write(w.chunk));
    } else if w.Announce? {
      assert u == v.After(Follower.Announce);
    } else if w.Finish? {
      assert u == v.After(Follower.Finish(x.pc.failed));
    }
  }

  /** Until a restart every step of anybody is, to the reader of a session, no change or one move of the
      world the follower of a growing file is proved against. */
  lemma ViewFollows(s: State, step: Step, j: nat, own: Trouble)
    requires Reachable(s) && Enabled(s, step) && !step.Crash? && j < |s.sessions| && s.sessions[j].m.ready
    ensures j < |Apply(s, step).sessions|
    ensures s.sessions[j].inode.Some? ==> Moves(View(s.sessions[j], own), View(Apply(s, step).sessions[j], own))
    ensures View(Apply(s, step).sessions[j], own).Follows(View(s.sessions[j], own))
  {
    hide Reachable, Core, RequestsOk, Effect, Next, Moves;
    EveryRun(s);
    StepOnward(s, step);
    OkSession(s, j);
    if step.Writer? && step.j == j {
      if s.sessions[j].inode.Some? {
        WorkMoves(s, s.sessions[j], step.work, own);
      }
    } else {
      StandsStill(View(s.sessions[j], own));
      assert Apply(s, step).sessions[j] == s.sessions[j];
    }
  }

  lemma StandsStill(v: Follower.State)
    ensures Moves(v, v)
  {}

  // ---- Opening the file after the snapshot ----

  /** The path of a snapshot leads to file i. */
  predicate Opens(s: State, q: Request, i: nat) {
    q.Snapped? && q.sid < |s.sessions| && Lookup(s, s.sessions[q.sid].key, q.path) == Some(i)
  }

  predicate InMap(s: State, sid: nat) {
    sid < |s.sessions| && s.sessions[sid].key in s.active && s.active[s.sessions[sid].key] == sid
  }

  /** Opening the part file of a snapshot finds the session's own file exactly when the session is still in
      the map, or has left the file behind and no later session opened it. */
  lemma PartOpensOwnIff(s: State, q: Request, i: nat)
    requires Reachable(s) && q in s.requests && Opens(s, q, i) && q.path == PartFile
    ensures Own(s, q.sid, i) <==>
              InMap(s, q.sid) || (s.sessions[q.sid].fate == Left && !OpenedLater(s.sessions, q.sid))
  {
    hide Reachable, History, OpenedLater, FilesOk;
    EveryHistory(s);
    assert RequestOk(s, q);
    IsTraced(s, q.sid);
    OkSession(s, q.sid);
    if !s.sessions[q.sid].pc.Gone? {
      NoneLater(s.sessions, q.sid);
    }
  }

  /** While the session is in the map, opening its part file succeeds exactly as long as the session holds
      it, or failed to remove or rename it. */
  lemma PartIsThereIff(s: State, q: Request)
    requires Reachable(s) && q in s.requests && q.Snapped? && q.path == PartFile && InMap(s, q.sid)
    ensures Lookup(s, s.sessions[q.sid].key, PartFile).Some? <==>
              s.sessions[q.sid].pc.HoldsPart() || s.sessions[q.sid].fate == Left
  {
    hide Reachable, History, OpenedLater;
    EveryHistory(s);
    assert RequestOk(s, q);
    IsTraced(s, q.sid);
    OkSession(s, q.sid);
    NoneLater(s.sessions, q.sid);
  }

  /** Opening the artifact of a snapshot finds the session's own file exactly when no later session of the
      key has put its file there. */
  lemma ArtifactOpensOwnIff(s: State, q: Request, i: nat)
    requires Reachable(s) && q in s.requests && Opens(s, q, i) && q.path == ArtifactFile
    requires s.sessions[q.sid].inode.Some?
    ensures Own(s, q.sid, i) <==> !PromotedLater(s.sessions, q.sid)
  {
    hide Reachable, History, OpenedLater, PromotedLater, FilesOk, ActiveOk;
    EveryHistory(s);
    assert RequestOk(s, q);
    IsTraced(s, q.sid);
    OkSession(s, q.sid);
  }
}
