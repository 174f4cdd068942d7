/** The shared downloads of internal/cache/cache.go as a transition system: writers, requests, files with
    open descriptors, cleanup and restarts, one step for each critical section or file operation. */
module Downloads {
  import opened Records
  import opened SessionMonitor

  type Key = string

  /** The next thing a session's writer does. */
  datatype Pc =
    | Opening                             // OpenFile of the part file
    | Fetching                            // the upstream request
    | Reading                             // the next read of the response body
    | Announcing(n: nat)                  // addAvailable for the bytes just written
    | Syncing                             // the body ended: Sync
    | Renaming                            // Rename into the artifacts
    | Relinking                           // setFilePath
    | Recording                           // store.Complete
    | Unlinking                           // 304: Remove of the part file
    | Reusing                             // 304: setCachedFile
    | Revalidating                        // 304: store.Revalidated
    | Finishing(failed: bool, removes: bool)  // finish, then perhaps Remove
    | Removing                            // Remove of the part file
    | Leaving                             // the deferred removal from the sessions map
    | Gone
  {
    /** The part file is the session's to write, rename or remove. */
    predicate HoldsPart() {
      Fetching? || Reading? || Announcing? || Syncing? || Renaming? || Unlinking? || Removing? || (Finishing? && removes)
    }

    /** Nothing has been announced yet. */
    predicate Unready() { Opening? || Fetching? || Unlinking? || Reusing? }
  }

  /** What became of a session's part file: nothing yet, the artifact, removed, left behind because the
      remove or rename failed, or given up for the cached object of a 304. */
  datatype Fate = Undecided | Promoted | Removed | Left | Dropped

  /** A session. `inode` is the file that holds its object once there is one: the part file it writes,
      or on a 304 the artifact it reuses; `received` is that object so far; `hasFile` says that the part
      file was opened, and `fate` what became of it. `prior` is the size in the row the session was
      started with, if any. */
  datatype Download = Download(
    key: Key, prior: Option<nat>, pc: Pc, hasFile: bool, fate: Fate, inode: Option<nat>, received: Bytes, m: Monitor)
  {
    /** The response ended where its Content-Length said, if it had one. */
    predicate BodyEnds() { m.total < 0 || |received| == m.total }

    /** Its object is whole, unless an error is still to come. */
    predicate Settled() {
      || pc.Syncing? || pc.Renaming? || pc.Relinking? || pc.Recording? || pc.Revalidating?
      || (pc.Finishing? && !pc.failed)
      || (m.complete && !m.failed)
    }
  }

  /** A request for a key, from its arrival to its end. Byte positions are absolute; `end` is negative
      for a request of the whole object. */
  datatype Request =
    | Looking(key: Key)
    | Found(key: Key, size: nat)                 // its row
    | Missing(key: Key, prior: Option<nat>)      // no fresh object; the size in the row of a stale one
    | Hit(key: Key, fd: nat)
    | Joined(sid: nat)
    | Snapped(sid: nat, total: int, path: FilePath)
    | Streaming(sid: nat, fd: nat, start: nat, end: int, sent: Bytes, limit: nat)
    | Returned(sid: nat, fd: nat, start: nat, end: int, sent: Bytes)
    | Over

  /** Files are inodes; a path is an entry of `part` or `artifact`. `bodies` are the complete successful
      responses so far, `promoted` the files ever renamed into the artifacts, `synced` the files whose
      content is on disk, `faulty` the keys a remove or rename failed for since the last restart, `emptied`
      the sessions whose part file a later session truncated, and `makers` says of each inode for which key
      it was made. */
  datatype State = State(
    inodes: seq<Bytes>, part: map<Key, nat>, artifact: map<Key, nat>, rows: map<Key, nat>,
    sessions: seq<Download>, active: map<Key, nat>, requests: seq<Request>,
    bodies: set<(Key, Bytes)>, promoted: set<(Key, nat)>, synced: set<nat>, faulty: set<Key>, emptied: set<nat>,
    makers: seq<Key>)

  const EMPTY := State([], map[], map[], map[], [], map[], [], {}, {}, {}, {}, {}, [])

  /** What a writer does in one step. */
  datatype Work =
    | OpenPart(ok: bool)
    | FetchFails
    | FetchNotModified
    | FetchOk(total: int)
    | ReadChunk(chunk: Bytes)
    | WriteFails(written: Bytes)
    | Announce
    | ReadFails
    | EndOfBody
    | Sync(ok: bool)
    | Rename(ok: bool)
    | Relink
    | Record(ok: bool)
    | Unlink(ok: bool)
    | Reuse
    | Revalidate(ok: bool)
    | Finish
    | RemovePart(ok: bool)
    | Leave

  /** What a request does in one step. */
  datatype Ask =
    | FindRow
    | OpenHit(ok: bool, current: bool)
    | Join
    | Snapshot
    | OpenFile(start: nat, end: int)
    | Check
    | Copy(n: nat)
    | Quit

  datatype Step =
    | Writer(j: nat, work: Work)
    | Reader(r: nat, ask: Ask)
    | Arrive(key: Key)
    | Prefetch(key: Key, prior: Option<nat>)
    | RemoveArtifact(key: Key)
    | DeleteRow(key: Key)
    | Crash(inodes: seq<Bytes>, part: map<Key, nat>, artifact: map<Key, nat>, rows: map<Key, nat>, makers: seq<Key>)

  // ---- Writers ----

  predicate CanWork(x: Download, w: Work) {
    match w
    case OpenPart(_) => x.pc.Opening?
    case FetchFails => x.pc.Fetching?
    case FetchNotModified => x.pc.Fetching? && x.prior.Some?
    case FetchOk(total) => x.pc.Fetching? && total >= -1
    case ReadChunk(chunk) => x.pc.Reading? && chunk != [] && (x.m.total >= 0 ==> |x.received| + |chunk| <= x.m.total)
    case WriteFails(_) => x.pc.Reading?
    case Announce => x.pc.Announcing?
    case ReadFails => x.pc.Reading?
    case EndOfBody => x.pc.Reading? && x.BodyEnds()
    case Sync(_) => x.pc.Syncing?
    case Rename(_) => x.pc.Renaming?
    case Relink => x.pc.Relinking?
    case Record(_) => x.pc.Recording?
    case Unlink(_) => x.pc.Unlinking?
    case Reuse => x.pc.Reusing? && x.prior.Some?
    case Revalidate(_) => x.pc.Revalidating?
    case Finish => x.pc.Finishing?
    case RemovePart(_) => x.pc.Removing?
    case Leave => x.pc.Leaving?
  }

  /** The file a path of the artifacts or the part files leads to. */
  function Lookup(s: State, key: Key, path: FilePath): Option<nat> {
    match path
    case PartFile => if key in s.part && s.part[key] < |s.inodes| then Some(s.part[key]) else None
    case ArtifactFile => if key in s.artifact && s.artifact[key] < |s.inodes| then Some(s.artifact[key]) else None
  }

  /** O_CREATE|O_TRUNC: the existing part file, or a new one. */
  function PartInode(s: State, key: Key): nat {
    match Lookup(s, key, PartFile)
    case Some(i) => i
    case None => |s.inodes|
  }

  /** setCachedFile announces the row's size; the file at the path is the object, if it still is what
      the row describes. */
  function Reused(s: State, x: Download): Download
    requires x.prior.Some?
  {
    var size := x.prior.value;
    var y := x.(pc := Revalidating, m := x.m.SetCachedFile(ArtifactFile, size, ""));
    match Lookup(s, x.key, ArtifactFile)
    case None => y
    case Some(i) => if |s.inodes[i]| == size then y.(inode := Some(i), received := s.inodes[i]) else y
  }

  /** What a step makes of its session. */
  function Next(s: State, x: Download, w: Work): Download
    requires CanWork(x, w)
  {
    match w
    case OpenPart(ok) =>
      if ok then x.(pc := Fetching, hasFile := true, inode := Some(PartInode(s, x.key)))
      else x.(pc := Finishing(true, false))
    case FetchFails => x.(pc := Finishing(true, true))
    case FetchNotModified => x.(pc := Unlinking)
    case FetchOk(total) => x.(pc := Reading, m := x.m.SetHeaders(total, ""))
    case ReadChunk(chunk) => x.(pc := Announcing(|chunk|), received := x.received + chunk)
    case WriteFails(_) => x.(pc := Finishing(true, true))
    case Announce => x.(pc := Reading, m := x.m.AddAvailable(x.pc.n))
    case ReadFails => x.(pc := Finishing(true, true))
    case EndOfBody => x.(pc := Syncing)
    case Sync(ok) => x.(pc := if ok then Renaming else Finishing(true, true))
    case Rename(ok) => if ok then x.(pc := Relinking, fate := Promoted) else x.(pc := Finishing(true, false), fate := Left)
    case Relink => x.(pc := Recording, m := x.m.SetFilePath(ArtifactFile))
    case Record(ok) => x.(pc := Finishing(!ok, false))
    case Unlink(_) => x.(pc := Reusing, fate := Dropped, inode := None)
    case Reuse => Reused(s, x)
    case Revalidate(ok) => x.(pc := Finishing(!ok, false))
    case Finish => x.(pc := if x.pc.removes then Removing else Leaving, m := x.m.Finish(x.pc.failed))
    case RemovePart(ok) => x.(pc := Leaving, fate := if ok then Removed else Left)
    case Leave => x.(pc := Gone)
  }

  /** Truncating the part file, or making one. */
  function Truncated(s: State, x: Download): State {
    var i := PartInode(s, x.key);
    if i < |s.inodes| then
      s.(inodes := s.inodes[i := []], synced := s.synced - {i},
         emptied := s.emptied + set k | 0 <= k < |s.sessions| && s.sessions[k].inode == Some(i))
    else s.(inodes := s.inodes + [[]], part := s.part[x.key := i], makers := s.makers + [x.key])
  }

  /** A write to the session's file. */
  function Appended(s: State, x: Download, bytes: Bytes): State {
    if x.inode.Some? && x.inode.value < |s.inodes| then
      var i := x.inode.value;
      s.(inodes := s.inodes[i := s.inodes[i] + bytes], synced := s.synced - {i})
    else s
  }

  /** Removing the part file of a key, or failing to. */
  function Unlinked(s: State, key: Key, ok: bool): State {
    if ok then s.(part := s.part - {key}) else s.(faulty := s.faulty + {key})
  }

  function Renamed(s: State, key: Key, ok: bool): State {
    if ok && key in s.part then
      s.(part := s.part - {key}, artifact := s.artifact[key := s.part[key]], promoted := s.promoted + {(key, s.part[key])})
    else s.(faulty := s.faulty + {key})
  }

  /** What a step does to everything but its session. */
  function Effect(s: State, x: Download, w: Work): State
    requires CanWork(x, w)
  {
    match w
    case OpenPart(ok) => if ok then Truncated(s, x) else s
    case ReadChunk(chunk) => Appended(s, x, chunk)
    case WriteFails(written) => Appended(s, x, written)
    case EndOfBody => s.(bodies := s.bodies + {(x.key, x.received)})
    case Sync(ok) => if ok && x.inode.Some? then s.(synced := s.synced + {x.inode.value}) else s
    case Rename(ok) => Renamed(s, x.key, ok)
    case Record(ok) => if ok then s.(rows := s.rows[x.key := x.m.available]) else s
    case Unlink(ok) => Unlinked(s, x.key, ok)
    case RemovePart(ok) => Unlinked(s, x.key, ok)
    case Leave => s.(active := s.active - {x.key})
    case _ => s
  }

  // ---- Requests ----

  /** What parseRange can answer: the whole object, or a part of one of known length. */
  predicate RangeOf(total: int, start: nat, end: int) { (start == 0 && end == -1) || start <= end < total }

  /** The wait of a reader at `offset` is over. */
  predicate CanLook(m: Monitor, end: int, offset: nat) { (end >= 0 && offset > end) || offset < m.available || m.complete }

  predicate CanAsk(s: State, q: Request, a: Ask) {
    match a
    case FindRow => q.Looking?
    case OpenHit(ok, _) => q.Found? && (ok ==> Lookup(s, q.key, ArtifactFile).Some?)
    case Join => q.Missing?
    case Snapshot => q.Joined? && q.sid < |s.sessions| && s.sessions[q.sid].m.ready
    case OpenFile(start, end) => q.Snapped? && q.sid < |s.sessions| && RangeOf(q.total, start, end)
    case Check =>
      q.Streaming? && q.sid < |s.sessions| && q.start + |q.sent| == q.limit
      && CanLook(s.sessions[q.sid].m, q.end, q.limit)
    case Copy(n) => q.Streaming? && q.fd < |s.inodes| && 0 < n && q.start + |q.sent| + n <= q.limit
    case Quit => true
  }

  /** One pass of the streaming loop: return, or a new limit to copy to. */
  function Checked(m: Monitor, sid: nat, fd: nat, start: nat, end: int, sent: Bytes): Request {
    var offset := start + |sent|;
    if end >= 0 && offset > end then Returned(sid, fd, start, end, sent)
    else if offset >= m.available then
      if m.failed then Over else Returned(sid, fd, start, end, sent)
    else Streaming(sid, fd, start, end, sent, if end >= 0 && m.available > end + 1 then end + 1 else m.available)
  }

  /** ReadAt: as many of n bytes as the file has from the offset. */
  function ReadFrom(file: Bytes, offset: nat, n: nat): Bytes {
    if offset >= |file| then [] else if offset + n <= |file| then file[offset..offset + n] else file[offset..]
  }

  /** getOrStart: the session of the key, a new one unless it is in the map. */
  function Started(s: State, key: Key, prior: Option<nat>): State {
    if key in s.active then s
    else s.(sessions := s.sessions + [Download(key, prior, Opening, false, Undecided, None, [], FRESH)],
            active := s.active[key := |s.sessions|])
  }

  /** What a step makes of its request. */
  function Answer(s: State, q: Request, a: Ask): Request
    requires CanAsk(s, q, a)
  {
    match a
    case FindRow => if q.key in s.rows then Found(q.key, s.rows[q.key]) else Missing(q.key, None)
    case OpenHit(ok, current) =>
      if !ok then Missing(q.key, None)
      else if !current then Missing(q.key, Some(q.size))
      else Hit(q.key, Lookup(s, q.key, ArtifactFile).value)
    case Join => Joined(if q.key in s.active then s.active[q.key] else |s.sessions|)
    case Snapshot =>
      var m := s.sessions[q.sid].m;
      if m.failed then Over else Snapped(q.sid, m.total, m.filePath)
    case OpenFile(start, end) =>
      (match Lookup(s, s.sessions[q.sid].key, q.path)
       case None => Over
       case Some(i) => Streaming(q.sid, i, start, end, [], start))
    case Check => Checked(s.sessions[q.sid].m, q.sid, q.fd, q.start, q.end, q.sent)
    case Copy(n) =>
      Streaming(q.sid, q.fd, q.start, q.end, q.sent + ReadFrom(s.inodes[q.fd], q.start + |q.sent|, n), q.limit)
    case Quit => Over
  }

  // ---- Steps ----

  /** File n is what a crash made of a promoted file of the key by undoing its rename: the same bytes under
      the part path. Nobody has it open, and the artifact path does not lead there, so it counts as a new file. */
  ghost predicate Undone(s: State, inodes: seq<Bytes>, artifact: map<Key, nat>, makers: seq<Key>, key: Key, n: nat) {
    && |s.inodes| <= n < |inodes| && n < |makers| && makers[n] == key
    && exists i :: (key, i) in s.promoted && i < |s.inodes| && (key in artifact ==> artifact[key] != i) && inodes[n] == s.inodes[i]
  }

  /** What a crash and the restart leave: synced content stays and other content may be anything; a
      removal of a part file may fail; a rename may not have reached the disk, so a path of the
      artifacts may lead to any file ever promoted for it, or to none, and the part path to that file. */
  ghost predicate CrashLeaves(s: State, inodes: seq<Bytes>, part: map<Key, nat>, artifact: map<Key, nat>, makers: seq<Key>) {
    && |inodes| >= |s.inodes| && |makers| == |inodes| && s.makers <= makers
    && (forall i: nat :: i in s.synced && i < |s.inodes| ==> inodes[i] == s.inodes[i])
    && (forall k :: k in part ==> (k in s.part && part[k] == s.part[k]) || Undone(s, inodes, artifact, makers, k, part[k]))
    && (forall k, k' :: k in part && k' in part && part[k] == part[k'] ==> k == k')
    && (forall k :: k in artifact ==> (k, artifact[k]) in s.promoted)
  }

  ghost predicate Enabled(s: State, step: Step) {
    match step
    case Writer(j, w) => j < |s.sessions| && CanWork(s.sessions[j], w)
    case Reader(r, a) => r < |s.requests| && CanAsk(s, s.requests[r], a)
    case Crash(inodes, part, artifact, _, makers) => CrashLeaves(s, inodes, part, artifact, makers)
    case _ => true
  }

  function Apply(s: State, step: Step): State
    requires Enabled(s, step)
  {
    match step
    case Writer(j, w) => Effect(s, s.sessions[j], w).(sessions := s.sessions[j := Next(s, s.sessions[j], w)])
    case Reader(r, a) =>
      var q := s.requests[r];
      (if a.Join? then Started(s, q.key, q.prior) else s).(requests := s.requests[r := Answer(s, q, a)])
    case Arrive(key) => s.(requests := s.requests + [Looking(key)])
    case Prefetch(key, prior) => Started(s, key, prior)
    case RemoveArtifact(key) => s.(artifact := s.artifact - {key})
    case DeleteRow(key) => s.(rows := s.rows - {key})
    case Crash(inodes, part, artifact, rows, makers) =>
      State(inodes, part, artifact, rows, [], map[], [], s.bodies, s.promoted, s.synced, {}, {}, makers)
  }
}
