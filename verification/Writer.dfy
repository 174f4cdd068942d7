/** The writer of one session, from start to end: download of internal/cache/cache.go, on the session of
    SessionMonitor. What others do meanwhile is in the transition systems. */
module Writer {
  import opened Records
  import opened SessionMonitor

  /** What upstream answers: an error, a 304, or a body in chunks that ends or breaks off. */
  datatype Reply = Refused | NotModified | Response(total: int, contentType: string, chunks: seq<Bytes>, ends: bool)

  /** Which operations succeed. `writes` is the number of writes that do. */
  datatype Works = Works(open: bool, writes: nat, sync: bool, rename: bool, record: bool, revalidate: bool, remove: bool)

  /** The row a session was started with. */
  datatype Prior = Prior(size: nat, contentType: string)

  /** The part file, the artifact and the size in the row of one key. */
  datatype Files = Files(part: Option<Bytes>, artifact: Option<Bytes>, row: Option<nat>)

  class Disk {
    var part: Option<Bytes>
    var artifact: Option<Bytes>
    var row: Option<nat>

    function View(): Files
      reads this
    {
      Files(part, artifact, row)
    }

    constructor ()
      ensures part == None && artifact == None && row == None
    {
      part, artifact, row := None, None, None;
    }

    /** os.Remove of the part file. */
    method RemovePart(works: bool)
      modifies `part
      ensures part == if works then None else old(part)
    {
      if works {
        part := None;
      }
    }
  }

  function Concat(chunks: seq<Bytes>): Bytes {
    if chunks == [] then [] else Concat(chunks[..|chunks| - 1]) + chunks[|chunks| - 1]
  }

  /** A body came and was written and synced to its end. */
  predicate Completes(reply: Reply, works: Works) {
    works.open && reply.Response? && |reply.chunks| <= works.writes && reply.ends && works.sync
  }

  /** The body of the reply was renamed into the artifacts. */
  predicate Promotes(reply: Reply, works: Works) { Completes(reply, works) && works.rename }

  predicate Reuses(size: Option<nat>, reply: Reply, works: Works) { works.open && reply.NotModified? && size.Some? }

  function SizeOf(prior: Option<Prior>): Option<nat> { if prior.Some? then Some(prior.value.size) else None }

  /** What was written of the body before the first failure. */
  function Written(reply: Reply, works: Works): Bytes
    requires reply.Response?
  {
    Concat(reply.chunks[..if works.writes < |reply.chunks| then works.writes else |reply.chunks|])
  }

  /** How a download ends. The session is finished, without an error exactly when its body was promoted and
      recorded or a 304 revalidated; it has announced what was written, under the length of the response, or the
      cached object. The artifact is a new one exactly when a whole body was promoted, and then it is that
      body; the row is a new one exactly when that was recorded, and then it has its length. The part file is
      left behind only by a failed open, remove or rename. */
  predicate Outcome(m0: Monitor, m: Monitor, before: Files, after: Files, size: Option<nat>, reply: Reply, works: Works) {
    && m.complete && m.ready && m.done && m.timer == NoTimer && m.waiting == {}
    && (!m.failed <==> (Promotes(reply, works) && works.record) || (Reuses(size, reply, works) && works.revalidate))
    && m.total == (if works.open && reply.Response? then reply.total
                   else if Reuses(size, reply, works) then size.value else m0.total)
    && m.available == (if works.open && reply.Response? then |Written(reply, works)|
                       else if Reuses(size, reply, works) then size.value else 0)
    && m.filePath == (if Promotes(reply, works) || Reuses(size, reply, works) then ArtifactFile else PartFile)
    && after.artifact == (if Promotes(reply, works) then Some(Concat(reply.chunks)) else before.artifact)
    && after.row == (if Promotes(reply, works) && works.record then Some(|Concat(reply.chunks)|) else before.row)
    && (Promotes(reply, works) ==> after.part == None)
    && (works.open && works.remove && !Completes(reply, works) ==> after.part == None)
    && (Completes(reply, works) && !works.rename ==> after.part == Some(Concat(reply.chunks)))
    && (!works.open ==> after.part == before.part)
  }

  predicate Finished(s: Session)
    reads s
  {
    s.complete && s.ready && s.done && s.idleTimer == NoTimer && s.waiting == {}
  }

  /** A 304: the cached object takes the place of the part file. */
  method Reuse(s: Session, d: Disk, prior: Prior, works: Works)
    modifies s, d`part
    ensures Finished(s) && (!s.failed <==> works.revalidate)
    ensures s.filePath == ArtifactFile && s.available == s.total == prior.size && s.contentType == prior.contentType
    ensures d.part == if works.remove then None else old(d.part)
    ensures s.readers == old(s.readers) && s.background == old(s.background) && s.cancelled == old(s.cancelled)
  {
    d.RemovePart(works.remove);
    s.SetCachedFile(ArtifactFile, prior.size, prior.contentType);
    if !works.revalidate {
      s.Finish(true);
      return;
    }
    s.Finish(false);
  }

  /** Reading the body into the part file, to its end or to the first failure. */
  method Receive(s: Session, d: Disk, reply: Reply, works: Works) returns (whole: bool)
    requires s.filePath == PartFile && s.available == 0 && !s.complete
    requires works.open && reply.Response? && d.part == Some([])
    modifies s, d`part
    ensures whole <==> Completes(reply, works)
    ensures s.ready && s.total == reply.total && s.contentType == reply.contentType
    ensures s.filePath == PartFile && s.available == |Written(reply, works)|
    ensures s.readers == old(s.readers) && s.background == old(s.background) && s.cancelled == old(s.cancelled)
    ensures whole ==> d.part == Some(Concat(reply.chunks)) && s.available == |Concat(reply.chunks)| && !s.complete
    ensures !whole ==> Finished(s) && s.failed && (works.remove ==> d.part == None)
  {
    s.SetHeaders(reply.total, reply.contentType);
    for n := 0 to |reply.chunks|
      invariant n <= works.writes
      invariant d.part == Some(Concat(reply.chunks[..n])) && s.available == |Concat(reply.chunks[..n])|
      invariant s.filePath == PartFile && !s.complete
      invariant s.ready && s.total == reply.total && s.contentType == reply.contentType
      invariant s.readers == old(s.readers) && s.background == old(s.background) && s.cancelled == old(s.cancelled)
    {
      var chunk := reply.chunks[n];
      assert reply.chunks[..n + 1][..n] == reply.chunks[..n];
      if n == works.writes {
        s.Finish(true);
        d.RemovePart(works.remove);
        return false;
      }
      d.part := Some(d.part.value + chunk);
      s.AddAvailable(|chunk|);
    }
    assert reply.chunks[..|reply.chunks|] == reply.chunks;
    if !reply.ends || !works.sync {
      s.Finish(true);
      d.RemovePart(works.remove);
      return false;
    }
    return true;
  }

  /** Moving the whole body into the artifacts and recording it. */
  method Promote(s: Session, d: Disk, works: Works)
    requires s.filePath == PartFile && !s.complete && d.part.Some?
    modifies s, d
    ensures Finished(s) && s.available == old(s.available)
    ensures !s.failed <==> works.rename && works.record
    ensures d.artifact == if works.rename then old(d.part) else old(d.artifact)
    ensures d.row == if works.rename && works.record then Some(old(s.available)) else old(d.row)
    ensures d.part == if works.rename then None else old(d.part)
    ensures s.filePath == if works.rename then ArtifactFile else PartFile
    ensures s.total == old(s.total) && s.contentType == old(s.contentType)
    ensures s.readers == old(s.readers) && s.background == old(s.background) && s.cancelled == old(s.cancelled)
  {
    if !works.rename {
      s.Finish(true);
      return;
    }
    d.artifact, d.part := d.part, None;
    s.SetFilePath(ArtifactFile);
    var size := s.available;
    if !works.record {
      s.Finish(true);
      return;
    }
    d.row := Some(size);
    s.Finish(false);
  }

  lemma CompletesBody(reply: Reply, works: Works)
    ensures Completes(reply, works) ==> works.open && reply.Response? && Written(reply, works) == Concat(reply.chunks)
  {
    if Completes(reply, works) {
      assert reply.chunks[..|reply.chunks|] == reply.chunks;
    }
  }

  /** download, with what is announced as the content type. */
  method Download(s: Session, d: Disk, prior: Option<Prior>, reply: Reply, works: Works)
    requires s.filePath == PartFile && s.available == 0 && !s.complete
    modifies s, d
    ensures Outcome(old(s.View()), s.View(), old(d.View()), d.View(), SizeOf(prior), reply, works)
    ensures s.contentType == if works.open && reply.Response? then reply.contentType
                             else if Reuses(SizeOf(prior), reply, works) then prior.value.contentType
                             else old(s.contentType)
    ensures s.readers == old(s.readers) && s.background == old(s.background) && s.cancelled == old(s.cancelled)
  {
    hide Concat, Written, Completes;
    CompletesBody(reply, works);
    if !works.open {
      s.Finish(true);
      return;
    }
    d.part := Some([]);
    if reply.Refused? || (reply.NotModified? && prior == None) {
      s.Finish(true);
      d.RemovePart(works.remove);
      return;
    }
    if reply.NotModified? {
      Reuse(s, d, prior.value, works);
      return;
    }
    var whole := Receive(s, d, reply, works);
    if whole {
      Promote(s, d, works);
    }
  }
}
