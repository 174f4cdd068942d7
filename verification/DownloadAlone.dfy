/** A writer whose key nobody else touches meanwhile does in Downloads what the method download of Writer
    does: from every reachable state, for every reply and every failing operation. */
module DownloadAlone {
  import opened Records
  import opened SessionMonitor
  import opened Downloads
  import opened DownloadInvariant
  import opened DownloadSteps
  import opened DownloadRuns
  import Whole = Writer

  // ---- The files of one key ----

  function Content(s: State, key: Key, path: FilePath): Option<Bytes> {
    match Lookup(s, key, path)
    case None => None
    case Some(i) => Some(s.inodes[i])
  }

  function FilesOf(s: State, key: Key): Whole.Files {
    Whole.Files(Content(s, key, PartFile), Content(s, key, ArtifactFile), if key in s.rows then Some(s.rows[key]) else None)
  }

  /** What a step of its session does to them. */
  function FilesNext(f: Whole.Files, x: Download, w: Work): Whole.Files {
    match w
    case OpenPart(ok) => if ok then f.(part := Some([])) else f
    case ReadChunk(chunk) => if f.part.Some? then f.(part := Some(f.part.value + chunk)) else f
    case WriteFails(written) => if f.part.Some? then f.(part := Some(f.part.value + written)) else f
    case Rename(ok) => if ok then f.(part := None, artifact := f.part) else f
    case Record(ok) => if ok then f.(row := Some(x.m.available)) else f
    case Unlink(ok) => if ok then f.(part := None) else f
    case RemovePart(ok) => if ok then f.(part := None) else f
    case _ => f
  }

  /** What the steps below need of the invariant. */
  lemma PartOfHolder(s: State, j: nat)
    requires Inv(s) && j < |s.sessions|
    ensures var x := s.sessions[j];
      && (x.pc.HoldsPart() ==> x.key in s.part && x.inode == Some(s.part[x.key]))
      && (x.key in s.part ==> s.part[x.key] < |s.inodes|)
      && (x.key in s.artifact ==> s.artifact[x.key] < |s.inodes|)
      && (x.key in s.part && x.key in s.artifact ==> s.part[x.key] != s.artifact[x.key])
  {
    OkSession(s, j);
  }

  lemma PathsOnFiles(s: State, x: Download, w: Work)
    requires CanWork(x, w) && (w.Rename? || w.Unlink? || w.RemovePart?)
    requires w.Rename? && w.ok ==> x.key in s.part && s.part[x.key] < |s.inodes|
    ensures FilesOf(Effect(s, x, w), x.key) == FilesNext(FilesOf(s, x.key), x, w)
  {}

  lemma WriteOnFiles(s: State, x: Download, w: Work)
    requires CanWork(x, w) && (w.ReadChunk? || w.WriteFails?)
    requires x.key in s.part && x.inode == Some(s.part[x.key]) && s.part[x.key] < |s.inodes|
    requires x.key in s.artifact ==> s.artifact[x.key] != s.part[x.key]
    ensures FilesOf(Effect(s, x, w), x.key) == FilesNext(FilesOf(s, x.key), x, w)
  {}

  lemma OpenOnFiles(s: State, x: Download, w: Work)
    requires CanWork(x, w) && w.OpenPart?
    requires x.key in s.part && x.key in s.artifact ==> s.artifact[x.key] != s.part[x.key]
    requires x.key in s.artifact ==> s.artifact[x.key] < |s.inodes|
    ensures FilesOf(Effect(s, x, w), x.key) == FilesNext(FilesOf(s, x.key), x, w)
  {}

  lemma OtherOnFiles(s: State, x: Download, w: Work)
    requires CanWork(x, w) && !(w.Rename? || w.Unlink? || w.RemovePart? || w.ReadChunk? || w.WriteFails? || w.OpenPart?)
    ensures FilesOf(Effect(s, x, w), x.key) == FilesNext(FilesOf(s, x.key), x, w)
  {}

  lemma StepOnFiles(s: State, j: nat, w: Work)
    requires Inv(s) && j < |s.sessions| && CanWork(s.sessions[j], w)
    ensures var x := s.sessions[j]; FilesOf(Apply(s, Writer(j, w)), x.key) == FilesNext(FilesOf(s, x.key), x, w)
  {
    hide Inv, Next, Effect, FilesNext;
    var x := s.sessions[j];
    PartOfHolder(s, j);
    if w.Rename? || w.Unlink? || w.RemovePart? {
      PathsOnFiles(s, x, w);
    } else if w.ReadChunk? || w.WriteFails? {
      WriteOnFiles(s, x, w);
    } else if w.OpenPart? {
      OpenOnFiles(s, x, w);
    } else {
      OtherOnFiles(s, x, w);
    }
  }

  // ---- Steps of one writer only ----

  /** Writer j does `ws` one after the other, and that leads to t. */
  ghost predicate Does(s: State, j: nat, ws: seq<Work>, t: State)
    decreases |ws|
  {
    if ws == [] then s == t
    else j < |s.sessions| && CanWork(s.sessions[j], ws[0]) && Does(Apply(s, Writer(j, ws[0])), j, ws[1..], t)
  }

  function StepsOf(j: nat, ws: seq<Work>): seq<Step> { seq(|ws|, k requires 0 <= k < |ws| => Step.Writer(j, ws[k])) }

  lemma {:induction false} DoesIsRun(s: State, j: nat, ws: seq<Work>, t: State)
    requires Does(s, j, ws, t)
    ensures IsRun(s, StepsOf(j, ws)) && After(s, StepsOf(j, ws)) == t
    decreases |ws|
  {
    hide Apply;
    if ws != [] {
      assert StepsOf(j, ws)[1..] == StepsOf(j, ws[1..]);
      DoesIsRun(Apply(s, Writer(j, ws[0])), j, ws[1..], t);
    }
  }

  lemma {:induction false} DoesThen(s: State, j: nat, ws: seq<Work>, t: State, vs: seq<Work>, u: State)
    requires Does(s, j, ws, t) && Does(t, j, vs, u)
    ensures Does(s, j, ws + vs, u)
    decreases |ws|
  {
    hide Apply, CanWork;
    if ws == [] {
      assert ws + vs == vs;
    } else {
      assert (ws + vs)[1..] == ws[1..] + vs;
      DoesThen(Apply(s, Writer(j, ws[0])), j, ws[1..], t, vs, u);
    }
  }

  /** Nothing else happened: the other sessions and the requests are as they were. */
  predicate Beside(s: State, t: State, j: nat) {
    && |t.sessions| == |s.sessions| && t.requests == s.requests
    && (forall k :: 0 <= k < |s.sessions| && k != j ==> t.sessions[k] == s.sessions[k])
  }

  lemma ActiveNext(s: State, x: Download, w: Work)
    requires CanWork(x, w)
    ensures Effect(s, x, w).active == if w.Leave? then s.active - {x.key} else s.active
  {
    hide PartInode;
  }

  lemma Do(s: State, j: nat, w: Work) returns (t: State)
    requires Reachable(s) && j < |s.sessions| && CanWork(s.sessions[j], w)
    ensures Reachable(t) && Beside(s, t, j) && Does(s, j, [w], t)
    ensures t.sessions[j] == Next(s, s.sessions[j], w)
    ensures FilesOf(t, s.sessions[j].key) == FilesNext(FilesOf(s, s.sessions[j].key), s.sessions[j], w)
    ensures t.active == if w.Leave? then s.active - {s.sessions[j].key} else s.active
  {
    hide Reachable, Inv, Next, Effect, FilesOf, FilesNext, CanWork;
    t := Apply(s, Writer(j, w));
    EveryRun(s);
    Reaches(s, Writer(j, w));
    StepOnFiles(s, j, w);
    EffectOnward(s, s.sessions[j], w);
    ActiveNext(s, s.sessions[j], w);
    assert [w][1..] == [];
  }

  // ---- What download does, for each reply ----

  /** What the HTTP library passes on: chunks that are not empty, and no more and no less than a Content-Length. */
  predicate Honest(reply: Whole.Reply) {
    reply.Response? ==>
      && reply.total >= -1 && (forall c :: c in reply.chunks ==> c != [])
      && (reply.total >= 0 ==> |Whole.Concat(reply.chunks)| <= reply.total)
      && (reply.total >= 0 && reply.ends ==> |Whole.Concat(reply.chunks)| == reply.total)
  }

  function ChunkWorks(chunks: seq<Bytes>, n: nat): seq<Work>
    requires n <= |chunks|
  {
    if n == 0 then [] else ChunkWorks(chunks, n - 1) + [ReadChunk(chunks[n - 1]), Announce]
  }

  function GivingUp(works: Whole.Works): seq<Work> { [Finish, RemovePart(works.remove), Leave] }

  function Moving(works: Whole.Works): seq<Work> {
    if works.rename then [Rename(true), Relink, Work.Record(works.record), Finish, Leave] else [Rename(false), Finish, Leave]
  }

  function BodyWorks(reply: Whole.Reply, works: Whole.Works): seq<Work>
    requires reply.Response?
  {
    if works.writes < |reply.chunks| then ChunkWorks(reply.chunks, works.writes) + ([WriteFails([])] + GivingUp(works))
    else ChunkWorks(reply.chunks, |reply.chunks|) +
         (if !reply.ends then [ReadFails] + GivingUp(works)
          else if !works.sync then [EndOfBody, Sync(false)] + GivingUp(works)
          else [EndOfBody, Sync(true)] + Moving(works))
  }

  function ReplyWorks(prior: Option<nat>, reply: Whole.Reply, works: Whole.Works): seq<Work> {
    match reply
    case Refused => [FetchFails] + GivingUp(works)
    case NotModified =>
      if prior == None then [FetchFails] + GivingUp(works)
      else [FetchNotModified, Unlink(works.remove), Reuse, Revalidate(works.revalidate), Finish, Leave]
    case Response(total, _, _, _) => [FetchOk(total)] + BodyWorks(reply, works)
  }

  function ScriptOf(prior: Option<nat>, reply: Whole.Reply, works: Whole.Works): seq<Work> {
    if works.open then [OpenPart(true)] + ReplyWorks(prior, reply, works) else [OpenPart(false), Finish, Leave]
  }

  // ---- The runs of those steps ----

  ghost predicate Led(s: State, j: nat, ws: seq<Work>, t: State) {
    && Reachable(t) && Beside(s, t, j) && Does(s, j, ws, t) && j < |s.sessions|
    && t.sessions[j].key == s.sessions[j].key
  }

  lemma NextSameKey(s: State, x: Download, w: Work)
    requires CanWork(x, w)
    ensures Next(s, x, w).key == x.key
  {}

  lemma Go(s: State, j: nat, ws: seq<Work>, t: State, w: Work) returns (u: State)
    requires Led(s, j, ws, t) && j < |t.sessions| && CanWork(t.sessions[j], w)
    ensures Led(s, j, ws + [w], u) && j < |s.sessions| == |u.sessions| && u.sessions[j] == Next(t, t.sessions[j], w)
    ensures FilesOf(u, s.sessions[j].key) == FilesNext(FilesOf(t, s.sessions[j].key), t.sessions[j], w)
    ensures u.active == if w.Leave? then t.active - {s.sessions[j].key} else t.active
  {
    hide Reachable, Next, FilesOf, FilesNext, CanWork, Does;
    u := Do(t, j, w);
    DoesThen(s, j, ws, t, [w], u);
    NextSameKey(t, t.sessions[j], w);
  }

  lemma FinishNext(s: State, x: Download)
    requires x.pc.Finishing?
    ensures CanWork(x, Finish)
    ensures Next(s, x, Finish) == x.(pc := if x.pc.removes then Removing else Leaving, m := x.m.Finish(x.pc.failed))
  {}

  lemma RemoveNext(s: State, x: Download, ok: bool)
    requires x.pc.Removing?
    ensures CanWork(x, RemovePart(ok)) && Next(s, x, RemovePart(ok)).pc == Leaving && Next(s, x, RemovePart(ok)).m == x.m
  {}

  lemma LeaveNext(s: State, x: Download)
    requires x.pc.Leaving?
    ensures CanWork(x, Leave) && Next(s, x, Leave) == x.(pc := Gone)
  {}

  lemma FailNext(s: State, x: Download, w: Work)
    requires CanWork(x, w) && (w.FetchFails? || w.WriteFails? || w.ReadFails? || w == Sync(false))
    ensures Next(s, x, w) == x.(pc := Finishing(true, true))
  {}

  /** The session has failed and the part file is to be removed. */
  lemma GiveUp(s: State, j: nat, ws: seq<Work>, t: State, works: Whole.Works) returns (u: State)
    requires Led(s, j, ws, t) && j < |t.sessions| && t.sessions[j].pc == Finishing(true, true)
    ensures Led(s, j, ws + GivingUp(works), u) && j < |u.sessions| && u.sessions[j].pc.Gone?
    ensures u.sessions[j].m == t.sessions[j].m.Finish(true)
    ensures FilesOf(u, s.sessions[j].key)
         == if works.remove then FilesOf(t, s.sessions[j].key).(part := None) else FilesOf(t, s.sessions[j].key)
    ensures u.active == t.active - {s.sessions[j].key}
  {
    hide Led, FilesOf, Next, CanWork;
    FinishNext(t, t.sessions[j]);
    u := Go(s, j, ws, t, Finish);
    RemoveNext(u, u.sessions[j], works.remove);
    u := Go(s, j, ws + [Finish], u, RemovePart(works.remove));
    LeaveNext(u, u.sessions[j]);
    u := Go(s, j, ws + [Finish] + [RemovePart(works.remove)], u, Leave);
    assert ws + [Finish] + [RemovePart(works.remove)] + [Leave] == ws + GivingUp(works);
  }

  /** A failing operation, and all that follows it. */
  lemma Fail(s: State, j: nat, ws: seq<Work>, t: State, w: Work, works: Whole.Works) returns (u: State)
    requires Led(s, j, ws, t) && j < |t.sessions| && CanWork(t.sessions[j], w)
    requires w.FetchFails? || w == WriteFails([]) || w.ReadFails? || w == Sync(false)
    ensures Led(s, j, ws + ([w] + GivingUp(works)), u) && j < |u.sessions| && u.sessions[j].pc.Gone?
    ensures u.sessions[j].m == t.sessions[j].m.Finish(true)
    ensures FilesOf(u, s.sessions[j].key)
         == if works.remove then FilesOf(t, s.sessions[j].key).(part := None) else FilesOf(t, s.sessions[j].key)
    ensures u.active == t.active - {s.sessions[j].key}
  {
    hide Led, FilesOf, Next, CanWork;
    FailNext(t, t.sessions[j], w);
    u := Go(s, j, ws, t, w);
    assert FilesOf(u, s.sessions[j].key) == FilesOf(t, s.sessions[j].key) by {
      if FilesOf(t, s.sessions[j].key).part.Some? {
        assert FilesOf(t, s.sessions[j].key).part.value + [] == FilesOf(t, s.sessions[j].key).part.value;
      }
    }
    u := GiveUp(s, j, ws + [w], u, works);
    assert ws + [w] + GivingUp(works) == ws + ([w] + GivingUp(works));
  }

  lemma LeaveNow(s: State, j: nat, ws: seq<Work>, t: State, failed: bool) returns (u: State)
    requires Led(s, j, ws, t) && j < |t.sessions| && t.sessions[j].pc == Finishing(failed, false)
    ensures Led(s, j, ws + [Finish, Leave], u) && j < |u.sessions| && u.sessions[j].pc.Gone?
    ensures u.sessions[j].m == t.sessions[j].m.Finish(failed)
    ensures FilesOf(u, s.sessions[j].key) == FilesOf(t, s.sessions[j].key)
    ensures u.active == t.active - {s.sessions[j].key}
  {
    hide Led, FilesOf, Next, CanWork;
    FinishNext(t, t.sessions[j]);
    u := Go(s, j, ws, t, Finish);
    LeaveNext(u, u.sessions[j]);
    u := Go(s, j, ws + [Finish], u, Leave);
    assert ws + [Finish] + [Leave] == ws + [Finish, Leave];
  }

  /** In the middle of the body. */
  predicate InBody(s: State, j: nat, t: State, total: int, received: Bytes) {
    && j < |s.sessions| && j < |t.sessions| && t.sessions[j].pc.Reading? && t.sessions[j].received == received
    && t.sessions[j].m == s.sessions[j].m.SetHeaders(total, "").(available := |received|, waiting := t.sessions[j].m.waiting)
    && FilesOf(t, s.sessions[j].key) == FilesOf(s, s.sessions[j].key).(part := Some(received))
    && t.active == s.active
  }

  lemma {:induction false} ConcatPrefix(chunks: seq<Bytes>, n: nat)
    requires n <= |chunks|
    ensures |Whole.Concat(chunks[..n])| <= |Whole.Concat(chunks)|
    ensures n > 0 ==> Whole.Concat(chunks[..n]) == Whole.Concat(chunks[..n - 1]) + chunks[n - 1]
    decreases |chunks|
  {
    if n > 0 {
      assert chunks[..n][..n - 1] == chunks[..n - 1];
    }
    if n == |chunks| {
      assert chunks[..n] == chunks;
    } else {
      ConcatPrefix(chunks[..|chunks| - 1], n);
      assert chunks[..|chunks| - 1][..n] == chunks[..n];
    }
  }

  lemma OneChunk(s: State, j: nat, ws: seq<Work>, t: State, total: int, received: Bytes, chunk: Bytes) returns (u: State)
    requires Led(s, j, ws, t) && InBody(s, j, t, total, received) && chunk != []
    requires total >= 0 ==> |received| + |chunk| <= total
    ensures Led(s, j, ws + [ReadChunk(chunk), Announce], u) && InBody(s, j, u, total, received + chunk)
  {
    hide Led, FilesOf;
    u := Go(s, j, ws, t, ReadChunk(chunk));
    u := Go(s, j, ws + [ReadChunk(chunk)], u, Announce);
    assert ws + [ReadChunk(chunk)] + [Announce] == ws + [ReadChunk(chunk), Announce];
  }

  lemma {:induction false} Chunks(s: State, j: nat, ws: seq<Work>, t: State, reply: Whole.Reply, n: nat) returns (u: State)
    requires Led(s, j, ws, t) && reply.Response? && Honest(reply) && n <= |reply.chunks|
    requires InBody(s, j, t, reply.total, [])
    ensures Led(s, j, ws + ChunkWorks(reply.chunks, n), u)
    ensures InBody(s, j, u, reply.total, Whole.Concat(reply.chunks[..n]))
    decreases n
  {
    hide Led, InBody;
    if n == 0 {
      u := t;
      assert ws + [] == ws;
    } else {
      u := Chunks(s, j, ws, t, reply, n - 1);
      ConcatPrefix(reply.chunks, n);
      assert reply.chunks[n - 1] in reply.chunks;
      var done := ws + ChunkWorks(reply.chunks, n - 1);
      u := OneChunk(s, j, done, u, reply.total, Whole.Concat(reply.chunks[..n - 1]), reply.chunks[n - 1]);
      assert ws + ChunkWorks(reply.chunks, n) == done + [ReadChunk(reply.chunks[n - 1]), Announce];
    }
  }

  // ---- How it ends ----

  /** What the session has when the body has been read so far. */
  predicate AnnouncedSo(m0: Monitor, m: Monitor, total: int, available: nat) {
    m.total == total && m.available == available && m.filePath == m0.filePath == PartFile
  }

  lemma FailedOutcome(m0: Monitor, m: Monitor, before: Whole.Files, after: Whole.Files, prior: Option<nat>,
                      reply: Whole.Reply, works: Whole.Works)
    requires works.open && reply.Response? && !Whole.Completes(reply, works)
    requires AnnouncedSo(m0, m, reply.total, |Whole.Written(reply, works)|)
    requires after == before.(part := after.part) && (works.remove ==> after.part == None)
    ensures Whole.Outcome(m0, m.Finish(true), before, after, prior, reply, works)
  {
    hide Whole.Written;
  }

  lemma WholeOutcome(m0: Monitor, m: Monitor, before: Whole.Files, after: Whole.Files, prior: Option<nat>,
                     reply: Whole.Reply, works: Whole.Works)
    requires Whole.Completes(reply, works) && AnnouncedSo(m0, m, reply.total, |Whole.Concat(reply.chunks)|)
    requires after == if works.rename then
                        Whole.Files(None, Some(Whole.Concat(reply.chunks)),
                                    if works.record then Some(|Whole.Concat(reply.chunks)|) else before.row)
                      else before.(part := Some(Whole.Concat(reply.chunks)))
    ensures var path := if works.rename then ArtifactFile else PartFile;
      Whole.Outcome(m0, m.SetFilePath(path).Finish(!(works.rename && works.record)), before, after, prior, reply, works)
  {
    hide Whole.Concat;
    assert reply.chunks[..|reply.chunks|] == reply.chunks;
  }

  lemma EndsHonestly(reply: Whole.Reply)
    requires Honest(reply) && reply.Response? && reply.ends
    ensures reply.total < 0 || |Whole.Concat(reply.chunks)| == reply.total
  {}

  lemma EndNext(s: State, x: Download)
    requires x.pc.Reading? && x.BodyEnds()
    ensures CanWork(x, EndOfBody) && Next(s, x, EndOfBody) == x.(pc := Syncing)
  {}

  /** The whole body is in the part file. */
  lemma ReadAll(s: State, j: nat, ws: seq<Work>, t: State, reply: Whole.Reply) returns (u: State)
    requires Led(s, j, ws, t) && reply.Response? && Honest(reply) && reply.ends
    requires InBody(s, j, t, reply.total, []) && s.sessions[j].m.filePath == PartFile
    ensures Led(s, j, ws + (ChunkWorks(reply.chunks, |reply.chunks|) + [EndOfBody]), u)
    ensures j < |s.sessions| == |u.sessions| && u.sessions[j].pc.Syncing?
    ensures AnnouncedSo(s.sessions[j].m, u.sessions[j].m, reply.total, |Whole.Concat(reply.chunks)|)
    ensures FilesOf(u, s.sessions[j].key) == FilesOf(s, s.sessions[j].key).(part := Some(Whole.Concat(reply.chunks)))
    ensures u.active == s.active
  {
    hide Led, FilesOf, ChunkWorks, Whole.Concat, Honest, Next, CanWork;
    var n := |reply.chunks|;
    u := Chunks(s, j, ws, t, reply, n);
    assert reply.chunks[..n] == reply.chunks;
    EndsHonestly(reply);
    EndNext(u, u.sessions[j]);
    u := Go(s, j, ws + ChunkWorks(reply.chunks, n), u, EndOfBody);
    assert ws + ChunkWorks(reply.chunks, n) + [EndOfBody] == ws + (ChunkWorks(reply.chunks, n) + [EndOfBody]);
  }

  ghost predicate Ends(s: State, j: nat, ws: seq<Work>, u: State, reply: Whole.Reply, works: Whole.Works) {
    && Led(s, j, ws, u) && j < |s.sessions| && j < |u.sessions| && u.sessions[j].pc.Gone?
    && Whole.Outcome(s.sessions[j].m, u.sessions[j].m, FilesOf(s, s.sessions[j].key), FilesOf(u, s.sessions[j].key),
                     s.sessions[j].prior, reply, works)
    && u.active == s.active - {s.sessions[j].key}
  }

  lemma Breaks(s: State, j: nat, t: State, total: int, received: Bytes)
    requires InBody(s, j, t, total, received) && s.sessions[j].m.filePath == PartFile
    ensures CanWork(t.sessions[j], ReadFails) && CanWork(t.sessions[j], WriteFails([])) && t.active == s.active
    ensures AnnouncedSo(s.sessions[j].m, t.sessions[j].m, total, |received|)
    ensures FilesOf(t, s.sessions[j].key) == FilesOf(s, s.sessions[j].key).(part := Some(received))
  {
    hide FilesOf;
  }

  /** The body breaks off, by a failed write or a failed read. */
  lemma BodyBreaksOff(s: State, j: nat, ws: seq<Work>, t: State, reply: Whole.Reply, works: Whole.Works) returns (u: State)
    requires Led(s, j, ws, t) && reply.Response? && Honest(reply) && works.open
    requires works.writes < |reply.chunks| || !reply.ends
    requires InBody(s, j, t, reply.total, []) && s.sessions[j].m.filePath == PartFile
    ensures Ends(s, j, ws + BodyWorks(reply, works), u, reply, works)
  {
    hide Led, FilesOf, ChunkWorks, Whole.Concat, Whole.Outcome, Honest, Next, CanWork, AnnouncedSo;
    var n := if works.writes < |reply.chunks| then works.writes else |reply.chunks|;
    u := Chunks(s, j, ws, t, reply, n);
    Breaks(s, j, u, reply.total, Whole.Written(reply, works));
    var read, m := ws + ChunkWorks(reply.chunks, n), u.sessions[j].m;
    var w := if works.writes < |reply.chunks| then WriteFails([]) else ReadFails;
    u := Fail(s, j, read, u, w, works);
    assert ws + BodyWorks(reply, works) == read + ([w] + GivingUp(works));
    FailedOutcome(s.sessions[j].m, m, FilesOf(s, s.sessions[j].key), FilesOf(u, s.sessions[j].key), s.sessions[j].prior, reply, works);
  }

  /** The body is read to its end, but cannot be synced. */
  lemma BodyNotSynced(s: State, j: nat, ws: seq<Work>, t: State, reply: Whole.Reply, works: Whole.Works) returns (u: State)
    requires Led(s, j, ws, t) && reply.Response? && Honest(reply) && works.open
    requires works.writes >= |reply.chunks| && reply.ends && !works.sync
    requires InBody(s, j, t, reply.total, []) && s.sessions[j].m.filePath == PartFile
    ensures Ends(s, j, ws + BodyWorks(reply, works), u, reply, works)
  {
    hide Led, FilesOf, ChunkWorks, Whole.Concat, Whole.Outcome, Honest, Next, InBody;
    u := ReadAll(s, j, ws, t, reply);
    var read, m := ws + (ChunkWorks(reply.chunks, |reply.chunks|) + [EndOfBody]), u.sessions[j].m;
    u := Fail(s, j, read, u, Sync(false), works);
    assert ws + BodyWorks(reply, works) == read + ([Sync(false)] + GivingUp(works));
    assert reply.chunks[..|reply.chunks|] == reply.chunks;
    FailedOutcome(s.sessions[j].m, m, FilesOf(s, s.sessions[j].key), FilesOf(u, s.sessions[j].key), s.sessions[j].prior, reply, works);
  }

  lemma SyncNext(s: State, x: Download)
    requires x.pc.Syncing?
    ensures CanWork(x, Sync(true)) && Next(s, x, Sync(true)) == x.(pc := Renaming)
  {}

  /** The body is complete and synced, and is to be moved. */
  lemma BodyEndsWell(s: State, j: nat, ws: seq<Work>, t: State, reply: Whole.Reply, works: Whole.Works) returns (u: State)
    requires Led(s, j, ws, t) && reply.Response? && Honest(reply) && Whole.Completes(reply, works)
    requires InBody(s, j, t, reply.total, []) && s.sessions[j].m.filePath == PartFile
    ensures Ends(s, j, ws + BodyWorks(reply, works), u, reply, works)
  {
    hide Led, FilesOf, ChunkWorks, Whole.Concat, Whole.Outcome, Honest, Next, InBody, CanWork;
    u := ReadAll(s, j, ws, t, reply);
    var read, m := ws + (ChunkWorks(reply.chunks, |reply.chunks|) + [EndOfBody]), u.sessions[j].m;
    SyncNext(u, u.sessions[j]);
    u := Go(s, j, read, u, Sync(true));
    u := Finishes(s, j, read + [Sync(true)], u, works);
    assert ws + BodyWorks(reply, works) == read + [Sync(true)] + Moving(works);
    WholeOutcome(s.sessions[j].m, m, FilesOf(s, s.sessions[j].key), FilesOf(u, s.sessions[j].key), s.sessions[j].prior, reply, works);
  }

  lemma Finishes(s: State, j: nat, ws: seq<Work>, t: State, works: Whole.Works) returns (u: State)
    requires Led(s, j, ws, t) && j < |t.sessions| && t.sessions[j].pc.Renaming? && t.sessions[j].m.filePath == PartFile
    ensures Led(s, j, ws + Moving(works), u) && j < |u.sessions| && u.sessions[j].pc.Gone?
    ensures var path := if works.rename then ArtifactFile else PartFile;
      u.sessions[j].m == t.sessions[j].m.SetFilePath(path).Finish(!(works.rename && works.record))
    ensures var f := FilesOf(t, s.sessions[j].key);
      FilesOf(u, s.sessions[j].key)
      == if works.rename then Whole.Files(None, f.part, if works.record then Some(t.sessions[j].m.available) else f.row) else f
    ensures u.active == t.active - {s.sessions[j].key}
  {
    hide Led, FilesOf;
    if works.rename {
      u := Go(s, j, ws, t, Rename(true));
      u := Go(s, j, ws + [Rename(true)], u, Relink);
      u := Go(s, j, ws + [Rename(true)] + [Relink], u, Work.Record(works.record));
      var moved := ws + [Rename(true)] + [Relink] + [Work.Record(works.record)];
      u := LeaveNow(s, j, moved, u, !works.record);
      assert moved + [Finish, Leave] == ws + Moving(works);
    } else {
      u := Go(s, j, ws, t, Rename(false));
      u := LeaveNow(s, j, ws + [Rename(false)], u, true);
      assert ws + [Rename(false)] + [Finish, Leave] == ws + Moving(works);
    }
  }

  // ---- From the start ----

  lemma OpenNext(s: State, x: Download, ok: bool)
    requires x.pc.Opening?
    ensures CanWork(x, OpenPart(ok))
    ensures var y := Next(s, x, OpenPart(ok));
      && y.m == x.m && y.prior == x.prior && y.received == x.received
      && y.pc == (if ok then Pc.Fetching else Finishing(true, false))
  {}

  lemma AtOpening(s: State, j: nat)
    requires Inv(s) && j < |s.sessions| && s.sessions[j].pc.Opening?
    ensures var x := s.sessions[j];
      x.m.available == 0 && x.m.total == -1 && x.m.filePath == PartFile && !x.m.complete && x.received == []
  {
    OkSession(s, j);
  }

  lemma EarlyOutcome(m: Monitor, before: Whole.Files, after: Whole.Files, prior: Option<nat>, reply: Whole.Reply, works: Whole.Works)
    requires m.available == 0 && m.filePath == PartFile
    requires !works.open || reply.Refused? || (reply.NotModified? && prior == None)
    requires after == before.(part := after.part) && if works.open then works.remove ==> after.part == None else after == before
    ensures Whole.Outcome(m, m.Finish(true), before, after, prior, reply, works)
  {}

  lemma ReuseOutcome(m: Monitor, before: Whole.Files, after: Whole.Files, prior: Option<nat>, works: Whole.Works)
    requires works.open && prior.Some?
    requires after == before.(part := after.part) && (works.remove ==> after.part == None)
    ensures Whole.Outcome(m, m.SetCachedFile(ArtifactFile, prior.value, "").Finish(!works.revalidate), before, after, prior,
                          Whole.NotModified, works)
  {}

  lemma ReusedNext(s: State, x: Download)
    requires x.pc.Reusing? && x.prior.Some?
    ensures CanWork(x, Reuse) && Next(s, x, Reuse).pc == Revalidating
    ensures Next(s, x, Reuse).m == x.m.SetCachedFile(ArtifactFile, x.prior.value, "")
  {}

  /** A 304. */
  lemma NotModifiedAlone(s: State, j: nat, ws: seq<Work>, t: State, works: Whole.Works) returns (u: State)
    requires Led(s, j, ws, t) && works.open && Fetches(s, j, t) && s.sessions[j].prior.Some?
    ensures Ends(s, j, ws + ReplyWorks(s.sessions[j].prior, Whole.NotModified, works), u, Whole.NotModified, works)
  {
    hide Led, FilesOf, Whole.Outcome, Reused;
    u := Go(s, j, ws, t, FetchNotModified);
    u := Go(s, j, ws + [FetchNotModified], u, Unlink(works.remove));
    ReusedNext(u, u.sessions[j]);
    u := Go(s, j, ws + [FetchNotModified] + [Unlink(works.remove)], u, Reuse);
    u := Go(s, j, ws + [FetchNotModified] + [Unlink(works.remove)] + [Reuse], u, Revalidate(works.revalidate));
    var done := ws + [FetchNotModified] + [Unlink(works.remove)] + [Reuse] + [Revalidate(works.revalidate)];
    u := LeaveNow(s, j, done, u, !works.revalidate);
    assert done + [Finish, Leave] == ws + ReplyWorks(s.sessions[j].prior, Whole.NotModified, works);
    ReuseOutcome(s.sessions[j].m, FilesOf(s, s.sessions[j].key), FilesOf(u, s.sessions[j].key), s.sessions[j].prior, works);
  }

  /** The part file has been opened. */
  predicate Fetches(s: State, j: nat, t: State) {
    && j < |s.sessions| && j < |t.sessions| && t.sessions[j].pc.Fetching?
    && t.sessions[j].prior == s.sessions[j].prior && t.sessions[j].received == [] && t.sessions[j].m == s.sessions[j].m
    && s.sessions[j].m.available == 0 && s.sessions[j].m.filePath == PartFile
    && FilesOf(t, s.sessions[j].key) == FilesOf(s, s.sessions[j].key).(part := Some([])) && t.active == s.active
  }

  lemma HeadersNext(s: State, j: nat, t: State, total: int)
    requires Fetches(s, j, t) && total >= -1
    ensures var x, y := t.sessions[j], t.sessions[j].(pc := Reading, m := t.sessions[j].m.SetHeaders(total, ""));
      CanWork(x, FetchOk(total)) && Next(t, x, FetchOk(total)) == y
      && y.m == s.sessions[j].m.SetHeaders(total, "").(available := 0, waiting := y.m.waiting)
  {
    hide FilesOf;
  }

  lemma ResponseAlone(s: State, j: nat, ws: seq<Work>, t: State, reply: Whole.Reply, works: Whole.Works) returns (u: State)
    requires Led(s, j, ws, t) && works.open && Fetches(s, j, t) && reply.Response? && Honest(reply)
    ensures Ends(s, j, ws + ReplyWorks(s.sessions[j].prior, reply, works), u, reply, works)
  {
    hide Led, FilesOf, Ends, BodyWorks, Next, CanWork;
    HeadersNext(s, j, t, reply.total);
    u := Go(s, j, ws, t, FetchOk(reply.total));
    var fetched := ws + [FetchOk(reply.total)];
    assert InBody(s, j, u, reply.total, []);
    assert fetched + BodyWorks(reply, works) == ws + ReplyWorks(s.sessions[j].prior, reply, works);
    if works.writes < |reply.chunks| || !reply.ends {
      u := BodyBreaksOff(s, j, fetched, u, reply, works);
    } else if !works.sync {
      u := BodyNotSynced(s, j, fetched, u, reply, works);
    } else {
      u := BodyEndsWell(s, j, fetched, u, reply, works);
    }
  }

  lemma LedItself(s: State, j: nat)
    requires Reachable(s) && j < |s.sessions|
    ensures Led(s, j, [], s)
  {
    hide Reachable;
  }

  /** From any reachable state, the writer of a new session can go through download with any reply and any
      failing operations; and it leaves the session, its files and its row as the method does, and nothing else
      changed but that the session is out of the map. */
  lemma WriterAlone(s: State, j: nat, reply: Whole.Reply, works: Whole.Works) returns (u: State)
    requires Reachable(s) && j < |s.sessions| && s.sessions[j].pc.Opening? && Honest(reply)
    ensures Reachable(u) && Does(s, j, ScriptOf(s.sessions[j].prior, reply, works), u)
    ensures Beside(s, u, j) && u.active == s.active - {s.sessions[j].key} && u.sessions[j].pc.Gone?
    ensures Whole.Outcome(s.sessions[j].m, u.sessions[j].m, FilesOf(s, s.sessions[j].key), FilesOf(u, s.sessions[j].key),
                          s.sessions[j].prior, reply, works)
  {
    hide Reachable, Inv, Led, FilesOf, Does, Whole.Outcome, ReplyWorks, Next, CanWork;
    EveryRun(s);
    AtOpening(s, j);
    LedItself(s, j);
    OpenNext(s, s.sessions[j], works.open);
    u := Go(s, j, [], s, OpenPart(works.open));
    assert [] + [OpenPart(works.open)] == [OpenPart(works.open)];
    var first := [OpenPart(works.open)];
    if !works.open {
      u := LeaveNow(s, j, first, u, true);
      assert first + [Finish, Leave] == ScriptOf(s.sessions[j].prior, reply, works);
      EarlyOutcome(s.sessions[j].m, FilesOf(s, s.sessions[j].key), FilesOf(u, s.sessions[j].key), s.sessions[j].prior, reply, works);
    } else if reply.Refused? || (reply.NotModified? && s.sessions[j].prior == None) {
      assert CanWork(u.sessions[j], FetchFails) by { MayRefuse(u.sessions[j]); }
      u := Fail(s, j, first, u, FetchFails, works);
      Refusal(s.sessions[j].prior, reply, works);
      EarlyOutcome(s.sessions[j].m, FilesOf(s, s.sessions[j].key), FilesOf(u, s.sessions[j].key), s.sessions[j].prior, reply, works);
    } else if reply.NotModified? {
      u := NotModifiedAlone(s, j, first, u, works);
    } else {
      u := ResponseAlone(s, j, first, u, reply, works);
    }
    LedParts(s, j, ScriptOf(s.sessions[j].prior, reply, works), u);
  }

  lemma MayRefuse(x: Download)
    requires x.pc.Fetching?
    ensures CanWork(x, FetchFails)
  {}

  lemma Refusal(prior: Option<nat>, reply: Whole.Reply, works: Whole.Works)
    requires reply.Refused? || (reply.NotModified? && prior == None)
    ensures ReplyWorks(prior, reply, works) == [FetchFails] + GivingUp(works)
  {}

  lemma LedParts(s: State, j: nat, ws: seq<Work>, u: State)
    requires Led(s, j, ws, u)
    ensures Reachable(u) && Does(s, j, ws, u) && Beside(s, u, j)
  {}
}
