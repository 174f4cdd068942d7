/** What every step of the shared downloads keeps. */
module DownloadInvariant {
  import opened Records
  import opened Sequences
  import opened SessionMonitor
  import opened Downloads

  // ---- The invariant ----

  /** What a session's own fields say about one another. */
  ghost predicate Local(x: Download) {
    && (x.pc.Unready() ==> !x.m.ready && x.m.available == 0 && x.received == [] && x.m.total == -1 && x.m.filePath == PartFile)
    && (x.m.complete <==> x.pc.Removing? || x.pc.Leaving? || x.pc.Gone?)
    && (x.m.failed ==> x.m.complete)
    && (x.pc.Opening? ==> x.inode == None && !x.hasFile)
    && (x.pc.Reusing? ==> x.inode == None)
    && (x.pc.Unlinking? || x.pc.Reusing? ==> x.prior.Some?)
    && (x.pc.HoldsPart() ==> x.inode.Some? && x.m.filePath == PartFile)
    && (x.pc.Relinking? || x.pc.Recording? ==> x.inode.Some?)
    && (x.pc.HoldsPart() || x.inode.Some? || x.pc.Reusing? || x.Settled() || (x.m.ready && !x.m.complete) ==> x.hasFile)
    && (x.inode.Some? ==> x.m.available <= |x.received| && (x.m.total >= 0 ==> |x.received| <= x.m.total))
    && (x.pc.Announcing? ==> x.m.available + x.pc.n == |x.received|)
    && (x.pc.Reading? ==> x.m.available == |x.received|)
    && (x.Settled() ==> (x.m.total >= 0 ==> x.m.available == x.m.total) && (x.inode.Some? ==> x.m.available == |x.received|))
  }

  /** What became of the part file goes with where the writer is. */
  ghost predicate FateOk(x: Download) {
    && (x.pc.Opening? || x.pc.HoldsPart() ==> x.fate == Undecided)
    && (x.fate == Undecided && x.hasFile ==> x.pc.HoldsPart())
    && (x.pc.Relinking? || x.pc.Recording? ==> x.fate == Promoted)
    && (x.pc.Reusing? || x.pc.Revalidating? ==> x.fate == Dropped)
    && (x.pc.Finishing? && !x.pc.failed ==> x.fate == Promoted || x.fate == Dropped)
    && (x.fate == Left ==> x.pc == Finishing(true, false) || x.pc.Leaving? || x.pc.Gone?)
    && (x.fate == Left || x.fate == Promoted ==> x.inode.Some?)
    && (x.m.ready && !x.m.failed && x.fate != Dropped ==> x.inode.Some?)
    && (x.m.filePath == ArtifactFile ==> x.fate == Promoted || x.fate == Dropped)
    && (x.fate == Dropped && !x.pc.Unready() ==> x.m.filePath == ArtifactFile && x.m.available == x.m.total)
    && (x.fate == Promoted && x.m.total >= 0 ==> |x.received| == x.m.total)
  }

  /** How a session may differ from what it was. */
  ghost predicate Grows(x: Download, y: Download) {
    && y.key == x.key
    && x.received <= y.received
    && x.m.available <= y.m.available
    && (x.hasFile ==> y.hasFile)
    && (x.m.ready ==> y.m.ready && y.m.total == x.m.total && y.inode == x.inode && (y.fate == Dropped <==> x.fate == Dropped))
    && (x.m.filePath == ArtifactFile ==> y.m.filePath == ArtifactFile)
    && (x.m.complete ==> y.m.complete && y.m.failed == x.m.failed && y.received == x.received && y.m.available == x.m.available)
  }

  /** The session of the key is in the map and the part file is its own. */
  predicate Held(s: State, key: Key) {
    key in s.active && s.active[key] < |s.sessions| && s.sessions[s.active[key]].pc.HoldsPart()
  }

  /** The file of a session is exactly what it has received. */
  predicate Exact(pc: Pc) {
    pc.Fetching? || pc.Reading? || pc.Announcing? || pc.Syncing? || pc.Renaming? || pc.Relinking? || pc.Recording?
  }

  /** A session's file has what the session has received. */
  ghost predicate Backed(s: State, j: nat)
    requires j < |s.sessions|
  {
    var x := s.sessions[j];
    && (x.inode.Some? ==> x.inode.value < |s.inodes| && (j !in s.emptied ==> x.received <= s.inodes[x.inode.value]))
    && (x.pc.HoldsPart() ==> x.key in s.part && x.inode == Some(s.part[x.key]) && j !in s.emptied)
    && (Exact(x.pc) && x.inode.Some? ==> x.inode.value < |s.inodes| && s.inodes[x.inode.value] == x.received)
    && (x.pc.Renaming? && x.inode.Some? ==> x.inode.value in s.synced)
    && (x.Settled() && x.inode.Some? ==> (x.key, x.received) in s.bodies)
    && ((x.pc.Relinking? || x.pc.Recording?) && x.inode.Some? ==> (x.key, x.inode.value) in s.promoted)
    && (j in s.emptied ==> x.key in s.faulty && x.inode.Some?)
  }

  /** A part file leads to a session's file only while the session holds it, or after a removal failed. */
  ghost predicate Owned(s: State, j: nat)
    requires j < |s.sessions|
  {
    var x := s.sessions[j];
    x.inode.Some? ==>
      forall k :: k in s.part && s.part[k] == x.inode.value ==>
        k == x.key && (j in s.emptied || x.pc.HoldsPart() || (k in s.faulty && !Held(s, k)))
  }

  /** The artifact of a session that announced one is its file, unless it was cleaned up; and a part file
      of the key is the current session's. */
  ghost predicate Linked(s: State, j: nat)
    requires j < |s.sessions|
  {
    var x := s.sessions[j];
    && (!x.pc.Gone? && (x.pc.Relinking? || x.pc.Recording? || x.m.filePath == ArtifactFile) && x.inode.Some? && x.key in s.artifact ==>
          s.artifact[x.key] == x.inode.value)
    && (x.hasFile && x.key in s.part && x.key !in s.faulty ==> Held(s, x.key))
  }

  ghost predicate SessionOk(s: State, j: nat)
    requires j < |s.sessions|
  {
    Local(s.sessions[j]) && FateOk(s.sessions[j]) && Backed(s, j) && Owned(s, j) && Linked(s, j)
  }

  /** Part files and artifacts are distinct files, and an artifact is the whole body of a response. */
  ghost predicate FilesOk(s: State) {
    && (forall k :: k in s.part ==> s.part[k] < |s.inodes|)
    && (forall k, k' :: k in s.part && k' in s.part && s.part[k] == s.part[k'] ==> k == k')
    && (forall k, i :: (k, i) in s.promoted ==> i < |s.inodes| && i in s.synced && (k, s.inodes[i]) in s.bodies)
    && (forall k, i, k' :: (k, i) in s.promoted && k' in s.part ==> s.part[k'] != i)
    && (forall k :: k in s.artifact ==> (k, s.artifact[k]) in s.promoted)
  }

  /** Unfinished downloads and entries of the sessions map are in bijection. */
  ghost predicate ActiveOk(s: State) {
    && (forall k :: k in s.active ==>
          s.active[k] < |s.sessions| && s.sessions[s.active[k]].key == k && !s.sessions[s.active[k]].pc.Gone?)
    && (forall j :: 0 <= j < |s.sessions| && !s.sessions[j].pc.Gone? ==>
          s.sessions[j].key in s.active && s.active[s.sessions[j].key] == j)
    && (forall j :: j in s.emptied ==> j < |s.sessions|)
  }

  /** The descriptor is of the session's file, which no later session has truncated. */
  predicate Own(s: State, sid: nat, fd: nat) {
    sid < |s.sessions| && s.sessions[sid].inode == Some(fd) && sid !in s.emptied
  }

  /** The response is as long as its headers said, or up to where the download ended. */
  ghost predicate Delivered(x: Download, start: nat, end: int, sent: Bytes) {
    if end >= 0 then |sent| == end + 1 - start
    else start == 0 && |sent| == x.m.available && x.m.complete && !x.m.failed
  }

  /** What has been sent is what the session received from `start` on, if the file is its own; and if the
      session reuses a cached object, what the opened artifact has there, whatever its length. */
  ghost predicate SentOk(s: State, sid: nat, fd: nat, start: nat, sent: Bytes)
    requires sid < |s.sessions|
  {
    var x := s.sessions[sid];
    && (Own(s, sid, fd) ==> IsSlice(x.received, start, sent))
    && (x.fate == Dropped ==> (x.key, fd) in s.promoted && fd < |s.inodes| && IsSlice(s.inodes[fd], start, sent))
  }

  ghost predicate RequestOk(s: State, q: Request) {
    match q
    case Looking(_) => true
    case Found(_, _) => true
    case Missing(_, _) => true
    case Hit(key, fd) => (key, fd) in s.promoted
    case Joined(sid) => sid < |s.sessions|
    case Snapped(sid, total, path) =>
      && sid < |s.sessions|
      && s.sessions[sid].m.ready && s.sessions[sid].hasFile && s.sessions[sid].m.total == total
      && (if path == ArtifactFile then s.sessions[sid].m.filePath == ArtifactFile
          else s.sessions[sid].inode.Some? && s.sessions[sid].fate != Dropped)
    case Streaming(sid, fd, start, end, sent, limit) =>
      && sid < |s.sessions|
      && s.sessions[sid].m.ready && RangeOf(s.sessions[sid].m.total, start, end)
      && start + |sent| <= limit && (limit == start || limit <= s.sessions[sid].m.available)
      && (end >= 0 ==> limit <= end + 1)
      && SentOk(s, sid, fd, start, sent)
    case Returned(sid, fd, start, end, sent) =>
      && sid < |s.sessions|
      && s.sessions[sid].m.ready && RangeOf(s.sessions[sid].m.total, start, end)
      && Delivered(s.sessions[sid], start, end, sent)
      && SentOk(s, sid, fd, start, sent)
    case Over => true
  }

  ghost predicate Core(s: State) {
    && FilesOk(s)
    && ActiveOk(s)
    && (forall j :: 0 <= j < |s.sessions| ==> SessionOk(s, j))
  }

  ghost predicate RequestsOk(s: State) { forall q :: q in s.requests ==> RequestOk(s, q) }

  ghost predicate Inv(s: State) { Core(s) && RequestsOk(s) }

  // ---- Sessions on their own ----

  lemma EarlyIsLocal(s: State, x: Download, w: Work)
    requires Local(x) && CanWork(x, w) && x.pc.Unready()
    ensures Local(Next(s, x, w))
  {}

  lemma LaterIsLocal(s: State, x: Download, w: Work)
    requires Local(x) && CanWork(x, w) && !x.pc.Unready()
    ensures Local(Next(s, x, w))
  {}

  lemma NextIsLocal(s: State, x: Download, w: Work)
    requires Local(x) && CanWork(x, w)
    ensures Local(Next(s, x, w))
  {
    hide *;
    if x.pc.Unready() {
      EarlyIsLocal(s, x, w);
    } else {
      LaterIsLocal(s, x, w);
    }
  }

  lemma NextFate(s: State, x: Download, w: Work)
    requires Local(x) && FateOk(x) && CanWork(x, w)
    ensures FateOk(Next(s, x, w))
  {}

  lemma NextOk(s: State, x: Download, w: Work)
    requires Local(x) && FateOk(x) && CanWork(x, w)
    ensures Local(Next(s, x, w)) && FateOk(Next(s, x, w))
  {
    hide *;
    NextIsLocal(s, x, w);
    NextFate(s, x, w);
  }

  lemma NextGrows(s: State, x: Download, w: Work)
    requires Local(x) && FateOk(x) && CanWork(x, w)
    ensures Grows(x, Next(s, x, w))
  {}

  // ---- Requests while others move ----

  /** What requests rely on. */
  ghost predicate Onward(s: State, t: State) {
    && |s.sessions| <= |t.sessions|
    && (forall j :: 0 <= j < |s.sessions| ==> Grows(s.sessions[j], t.sessions[j]))
    && (forall k, i :: (k, i) in s.promoted ==> (k, i) in t.promoted)
    && (forall k, i :: (k, i) in s.promoted && i < |s.inodes| ==> i < |t.inodes| && t.inodes[i] == s.inodes[i])
    && s.emptied <= t.emptied
  }

  lemma SentStays(s: State, t: State, sid: nat, fd: nat, start: nat, sent: Bytes)
    requires Onward(s, t) && sid < |s.sessions| && s.sessions[sid].m.ready && SentOk(s, sid, fd, start, sent)
    ensures SentOk(t, sid, fd, start, sent)
  {
    assert Grows(s.sessions[sid], t.sessions[sid]);
    if Own(t, sid, fd) {
      SliceStays(s.sessions[sid].received, t.sessions[sid].received, start, sent);
    }
  }

  lemma RequestStays(s: State, t: State, q: Request)
    requires Onward(s, t) && RequestOk(s, q)
    ensures RequestOk(t, q)
  {
    hide SentOk;
    match q {
      case Streaming(sid, fd, start, _, sent, _) =>
        assert Grows(s.sessions[sid], t.sessions[sid]);
        SentStays(s, t, sid, fd, start, sent);
      case Returned(sid, fd, start, _, sent) =>
        assert Grows(s.sessions[sid], t.sessions[sid]);
        SentStays(s, t, sid, fd, start, sent);
      case Snapped(sid, _, _) =>
        assert Grows(s.sessions[sid], t.sessions[sid]);
      case _ =>
    }
  }
}
