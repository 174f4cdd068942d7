/** Each step of the shared downloads keeps the invariant, one kind of step at a time. */
module DownloadSteps {
  import opened Records
  import opened SessionMonitor
  import opened Downloads
  import opened DownloadInvariant

  // ---- Steps of a writer ----

  /** Session j becomes y and stays in the map. */
  ghost predicate Replaces(s: State, t: State, j: nat, y: Download) {
    && j < |s.sessions|
    && t.sessions == s.sessions[j := y]
    && t.active == s.active
    && y.key == s.sessions[j].key && !s.sessions[j].pc.Gone? && !y.pc.Gone?
  }

  lemma ReplacedActive(s: State, t: State, j: nat, y: Download)
    requires ActiveOk(s) && Replaces(s, t, j, y)
    requires forall k :: k in t.emptied ==> k < |s.sessions|
    ensures ActiveOk(t)
  {}

  lemma OkSession(s: State, j: nat)
    requires Core(s) && j < |s.sessions|
    ensures SessionOk(s, j) && Local(s.sessions[j]) && FateOk(s.sessions[j])
  {}

  lemma IsCore(s: State)
    requires FilesOk(s) && ActiveOk(s) && forall j :: 0 <= j < |s.sessions| ==> SessionOk(s, j)
    ensures Core(s)
  {}

  /** The holder of a part file is in the map. */
  lemma HolderHeld(s: State, j: nat)
    requires Core(s) && j < |s.sessions| && s.sessions[j].pc.HoldsPart()
    ensures Held(s, s.sessions[j].key) && s.active[s.sessions[j].key] == j
    ensures s.sessions[j].key in s.part && s.sessions[j].inode == Some(s.part[s.sessions[j].key])
  {
    assert SessionOk(s, j);
  }

  /** A session other than the holder of a part file that had the same file has lost it. */
  lemma NotShared(s: State, j: nat, k: nat)
    requires Core(s) && j < |s.sessions| && k < |s.sessions| && k != j
    requires s.sessions[j].pc.HoldsPart() && s.sessions[k].inode == s.sessions[j].inode
    ensures k in s.emptied && !s.sessions[k].pc.HoldsPart() && !Exact(s.sessions[k].pc)
  {
    HolderHeld(s, j);
    OkSession(s, k);
    if s.sessions[k].pc.HoldsPart() {
      HolderHeld(s, k);
    }
  }

  // ---- Steps that leave the files alone ----

  /** A step that touches no file, or only makes its content durable. */
  predicate Steady(w: Work) {
    match w
    case OpenPart(ok) => !ok
    case ReadChunk(_) => false
    case WriteFails(_) => false
    case Rename(_) => false
    case Unlink(_) => false
    case Reuse => false
    case RemovePart(_) => false
    case Leave => false
    case _ => true
  }

  ghost predicate SameFiles(s: State, t: State) {
    && t.inodes == s.inodes && t.part == s.part && t.artifact == s.artifact && t.active == s.active
    && t.promoted == s.promoted && t.faulty == s.faulty && t.emptied == s.emptied && t.makers == s.makers
    && s.bodies <= t.bodies && s.synced <= t.synced
  }

  ghost predicate SteadyShape(s: State, t: State, j: nat, y: Download) {
    && SameFiles(s, t) && Replaces(s, t, j, y)
    && y.inode == s.sessions[j].inode && y.received == s.sessions[j].received
    && y.pc.HoldsPart() == s.sessions[j].pc.HoldsPart()
    && y.hasFile == s.sessions[j].hasFile && y.fate == s.sessions[j].fate
  }

  lemma SteadyEffect(s: State, x: Download, w: Work)
    requires CanWork(x, w) && Steady(w)
    ensures SameFiles(s, Effect(s, x, w)) && Effect(s, x, w).sessions == s.sessions
  {}

  lemma SteadyStep(s: State, j: nat, w: Work)
    requires j < |s.sessions| && CanWork(s.sessions[j], w) && Steady(w)
    ensures SteadyShape(s, Apply(s, Writer(j, w)), j, Next(s, s.sessions[j], w))
  {
    hide Effect;
    SteadyEffect(s, s.sessions[j], w);
  }

  lemma SteadyFiles(s: State, t: State, j: nat, y: Download)
    requires FilesOk(s) && SteadyShape(s, t, j, y)
    ensures FilesOk(t)
  {}

  lemma SteadyHeld(s: State, t: State, j: nat, y: Download)
    requires SteadyShape(s, t, j, y)
    ensures forall k :: Held(t, k) == Held(s, k)
  {}

  lemma SteadyOther(s: State, t: State, j: nat, y: Download, k: nat)
    requires SteadyShape(s, t, j, y) && k < |s.sessions| && k != j && SessionOk(s, k)
    ensures SessionOk(t, k)
  {
    hide Held, Local, FateOk;
    SteadyHeld(s, t, j, y);
  }

  lemma SteadyBacked(s: State, j: nat, w: Work)
    requires j < |s.sessions| && CanWork(s.sessions[j], w) && Steady(w) && SessionOk(s, j)
    ensures Backed(Apply(s, Writer(j, w)), j)
  {
    hide Owned, Linked;
  }

  lemma SteadyLinked(s: State, j: nat, w: Work)
    requires j < |s.sessions| && CanWork(s.sessions[j], w) && Steady(w) && SessionOk(s, j)
    ensures var t := Apply(s, Writer(j, w)); Owned(t, j) && Linked(t, j)
  {
    hide Held, Backed, Local, FateOk;
    SteadyStep(s, j, w);
    SteadyHeld(s, Apply(s, Writer(j, w)), j, Next(s, s.sessions[j], w));
  }

  lemma SteadyKeeps(s: State, j: nat, w: Work)
    requires Core(s) && j < |s.sessions| && CanWork(s.sessions[j], w) && Steady(w)
    ensures Core(Apply(s, Writer(j, w)))
  {
    hide Core, Apply, Next, Effect, Held, Local, FateOk, Backed, Owned, Linked;
    var t, y := Apply(s, Writer(j, w)), Next(s, s.sessions[j], w);
    CoreParts(s);
    SteadyStep(s, j, w);
    SteadyFiles(s, t, j, y);
    ReplacedActive(s, t, j, y);
    OkSession(s, j);
    NextOk(s, s.sessions[j], w);
    SteadyBacked(s, j, w);
    SteadyLinked(s, j, w);
    forall k | 0 <= k < |t.sessions| ensures SessionOk(t, k) {
      if k != j {
        OkSession(s, k);
        SteadyOther(s, t, j, y, k);
      }
    }
    IsCore(t);
  }

  lemma CoreParts(s: State)
    requires Core(s)
    ensures FilesOk(s) && ActiveOk(s)
  {}

  // ---- Writing to the part file ----

  ghost predicate AppendShape(s: State, t: State, j: nat, y: Download, bytes: Bytes) {
    && Replaces(s, t, j, y)
    && s.sessions[j].pc.Reading? && y.pc.HoldsPart() && y.inode == s.sessions[j].inode && y.inode.Some?
    && y.inode.value < |s.inodes|
    && y.hasFile == s.sessions[j].hasFile && y.fate == s.sessions[j].fate
    && t.inodes == s.inodes[y.inode.value := s.inodes[y.inode.value] + bytes]
    && t.synced == s.synced - {y.inode.value}
    && t.part == s.part && t.artifact == s.artifact && t.promoted == s.promoted && t.faulty == s.faulty
    && t.emptied == s.emptied && t.bodies == s.bodies
  }

  lemma AppendFiles(s: State, t: State, j: nat, y: Download, bytes: Bytes)
    requires Core(s) && AppendShape(s, t, j, y, bytes)
    ensures FilesOk(t)
  {
    HolderHeld(s, j);
  }

  lemma AppendHeld(s: State, t: State, j: nat, y: Download, bytes: Bytes)
    requires AppendShape(s, t, j, y, bytes)
    ensures forall k :: Held(t, k) == Held(s, k)
  {}

  lemma AppendOther(s: State, t: State, j: nat, y: Download, bytes: Bytes, k: nat)
    requires Core(s) && AppendShape(s, t, j, y, bytes) && k < |s.sessions| && k != j
    ensures SessionOk(t, k)
  {
    hide Held, Local, FateOk, Core, FilesOk, ActiveOk;
    OkSession(s, k);
    AppendHeld(s, t, j, y, bytes);
    if s.sessions[k].inode == s.sessions[j].inode {
      NotShared(s, j, k);
    }
  }

  lemma AppendSelf(s: State, t: State, j: nat, y: Download, bytes: Bytes)
    requires Core(s) && AppendShape(s, t, j, y, bytes) && Local(y) && FateOk(y)
    requires y.pc.Announcing? || (y.pc.Finishing? && y.pc.failed)
    requires y.received == s.sessions[j].received || y.received == s.sessions[j].received + bytes
    requires y.pc.Announcing? ==> y.received == s.sessions[j].received + bytes
    ensures SessionOk(t, j)
  {
    hide Core, FilesOk, ActiveOk;
    OkSession(s, j);
    HolderHeld(s, j);
    AppendHeld(s, t, j, y, bytes);
  }

  lemma AppendStep(s: State, j: nat, w: Work)
    requires Core(s) && j < |s.sessions| && CanWork(s.sessions[j], w) && (w.ReadChunk? || w.WriteFails?)
    ensures AppendShape(s, Apply(s, Writer(j, w)), j, Next(s, s.sessions[j], w), if w.ReadChunk? then w.chunk else w.written)
  {
    hide Core, FilesOk, ActiveOk;
    CoreParts(s);
    HolderHeld(s, j);
    PartBound(s, s.sessions[j].key);
  }

  lemma AppendKeeps(s: State, j: nat, w: Work)
    requires Core(s) && j < |s.sessions| && CanWork(s.sessions[j], w) && (w.ReadChunk? || w.WriteFails?)
    ensures Core(Apply(s, Writer(j, w)))
  {
    hide Core, FilesOk, ActiveOk, Local, FateOk, Owned, Linked, Held, SessionOk;
    var t, y := Apply(s, Writer(j, w)), Next(s, s.sessions[j], w);
    var bytes := if w.ReadChunk? then w.chunk else w.written;
    CoreParts(s);
    AppendStep(s, j, w);
    AppendFiles(s, t, j, y, bytes);
    EmptiedBound(s);
    ReplacedActive(s, t, j, y);
    OkSession(s, j);
    NextOk(s, s.sessions[j], w);
    AppendSelf(s, t, j, y, bytes);
    forall k | 0 <= k < |t.sessions| ensures SessionOk(t, k) {
      if k != j {
        AppendOther(s, t, j, y, bytes, k);
      }
    }
    IsCore(t);
  }

  lemma PartBound(s: State, key: Key)
    requires FilesOk(s) && key in s.part
    ensures s.part[key] < |s.inodes|
  {}

  lemma EmptiedBound(s: State)
    requires ActiveOk(s)
    ensures forall k :: k in s.emptied ==> k < |s.sessions|
  {}

  // ---- Opening the part file ----

  ghost predicate OpenShape(s: State, t: State, j: nat, y: Download, i: nat) {
    && Replaces(s, t, j, y)
    && s.sessions[j].pc.Opening? && y.pc.Fetching? && y.inode == Some(i) && y.hasFile && y.fate == s.sessions[j].fate
    && t.artifact == s.artifact && t.promoted == s.promoted && t.faulty == s.faulty && t.bodies == s.bodies
  }

  ghost predicate MadeShape(s: State, t: State, j: nat, y: Download) {
    && OpenShape(s, t, j, y, |s.inodes|)
    && y.key !in s.part
    && t.inodes == s.inodes + [[]] && t.part == s.part[y.key := |s.inodes|]
    && t.synced == s.synced && t.emptied == s.emptied
  }

  ghost predicate TruncatedShape(s: State, t: State, j: nat, y: Download, i: nat) {
    && OpenShape(s, t, j, y, i)
    && y.key in s.part && s.part[y.key] == i < |s.inodes|
    && t.inodes == s.inodes[i := []] && t.part == s.part && t.synced == s.synced - {i}
    && (forall k: nat :: k in t.emptied <==> k in s.emptied || (k < |s.sessions| && s.sessions[k].inode == Some(i)))
  }

  lemma OpenHeld(s: State, t: State, j: nat, y: Download, i: nat)
    requires ActiveOk(s) && OpenShape(s, t, j, y, i)
    ensures Held(t, y.key) && !Held(s, y.key) && forall k :: k != y.key ==> Held(t, k) == Held(s, k)
  {}

  lemma OpenFiles(s: State, t: State, j: nat, y: Download, i: nat)
    requires FilesOk(s) && (MadeShape(s, t, j, y) || TruncatedShape(s, t, j, y, i))
    ensures FilesOk(t)
  {}

  lemma MadeOther(s: State, t: State, j: nat, y: Download, k: nat)
    requires Core(s) && MadeShape(s, t, j, y) && k < |s.sessions| && k != j
    ensures SessionOk(t, k)
  {
    hide Held, Local, FateOk, Core;
    CoreParts(s);
    OkSession(s, k);
    OpenHeld(s, t, j, y, |s.inodes|);
  }

  lemma TruncatedOther(s: State, t: State, j: nat, y: Download, i: nat, k: nat)
    requires Core(s) && TruncatedShape(s, t, j, y, i) && k < |s.sessions| && k != j
    ensures SessionOk(t, k)
  {
    hide Held, Local, FateOk, Core, FilesOk;
    CoreParts(s);
    OkSession(s, k);
    OpenHeld(s, t, j, y, i);
    if s.sessions[k].pc.HoldsPart() {
      HolderHeld(s, k);
    }
    if s.sessions[k].inode == Some(i) {
      PromotedApart(s, i);
    }
  }

  lemma PromotedApart(s: State, i: nat)
    requires FilesOk(s) && exists k :: k in s.part && s.part[k] == i
    ensures forall k :: (k, i) !in s.promoted
  {}

  lemma OpenSelf(s: State, t: State, j: nat, y: Download, i: nat)
    requires Core(s) && (MadeShape(s, t, j, y) || TruncatedShape(s, t, j, y, i)) && i == y.inode.value
    requires Local(y) && FateOk(y) && y.received == [] && !y.m.complete && y.m.filePath == PartFile
    ensures SessionOk(t, j)
  {
    hide Core, Held;
    CoreParts(s);
    OkSession(s, j);
    OpenHeld(s, t, j, y, i);
    if MadeShape(s, t, j, y) {
      PartsBelow(s);
    }
  }

  lemma PartsBelow(s: State)
    requires FilesOk(s)
    ensures forall k :: k in s.part ==> s.part[k] < |s.inodes|
  {}

  lemma OpenStep(s: State, j: nat)
    requires FilesOk(s) && ActiveOk(s) && j < |s.sessions| && s.sessions[j].pc.Opening?
    ensures var t, y := Apply(s, Writer(j, OpenPart(true))), Next(s, s.sessions[j], OpenPart(true));
      y.inode.Some? && (MadeShape(s, t, j, y) || TruncatedShape(s, t, j, y, y.inode.value))
  {
    PartsBelow(s);
    var t, y := Apply(s, Writer(j, OpenPart(true))), Next(s, s.sessions[j], OpenPart(true));
    if y.key in s.part {
      assert TruncatedShape(s, t, j, y, y.inode.value);
    } else {
      assert MadeShape(s, t, j, y);
    }
  }

  lemma OpenKeeps(s: State, j: nat)
    requires Core(s) && j < |s.sessions| && s.sessions[j].pc.Opening?
    ensures Core(Apply(s, Writer(j, OpenPart(true))))
  {
    hide Core, FilesOk, ActiveOk, Local, FateOk, Owned, Linked, Held, SessionOk;
    var w := OpenPart(true);
    var t, y := Apply(s, Writer(j, w)), Next(s, s.sessions[j], w);
    var i := y.inode.value;
    CoreParts(s);
    OkSession(s, j);
    NextOk(s, s.sessions[j], w);
    OpeningIs(s.sessions[j]);
    OpenStep(s, j);
    OpenFiles(s, t, j, y, i);
    EmptiedBound(s);
    ReplacedActive(s, t, j, y);
    OpenSelf(s, t, j, y, i);
    forall k | 0 <= k < |t.sessions| ensures SessionOk(t, k) {
      if k == j {
      } else if MadeShape(s, t, j, y) {
        MadeOther(s, t, j, y, k);
      } else {
        TruncatedOther(s, t, j, y, i, k);
      }
    }
    IsCore(t);
  }

  lemma OpeningIs(x: Download)
    requires Local(x) && x.pc.Opening?
    ensures x.received == [] && !x.m.complete && x.m.filePath == PartFile
  {}

  // ---- Removing the part file, or failing to remove or rename it ----

  ghost predicate UnlinkShape(s: State, t: State, j: nat, y: Download, ok: bool) {
    && Replaces(s, t, j, y)
    && s.sessions[j].pc.HoldsPart() && !y.pc.HoldsPart() && !Exact(y.pc) && (y.inode == s.sessions[j].inode || y.inode == None)
    && y.received == s.sessions[j].received && y.hasFile == s.sessions[j].hasFile
    && (if y.inode == None then y.fate == Dropped else y.fate == if ok then Removed else Left)
    && t.part == (if ok then s.part - {y.key} else s.part)
    && t.faulty == (if ok then s.faulty else s.faulty + {y.key})
    && t.inodes == s.inodes && t.artifact == s.artifact && t.promoted == s.promoted && t.bodies == s.bodies
    && t.synced == s.synced && t.emptied == s.emptied
  }

  lemma UnlinkFiles(s: State, t: State, j: nat, y: Download, ok: bool)
    requires FilesOk(s) && UnlinkShape(s, t, j, y, ok)
    ensures FilesOk(t)
  {}

  lemma UnlinkHeld(s: State, t: State, j: nat, y: Download, ok: bool)
    requires ActiveOk(s) && UnlinkShape(s, t, j, y, ok)
    ensures !Held(t, y.key) && forall k :: k != y.key ==> Held(t, k) == Held(s, k)
  {}

  lemma UnlinkOther(s: State, t: State, j: nat, y: Download, ok: bool, k: nat)
    requires Core(s) && UnlinkShape(s, t, j, y, ok) && k < |s.sessions| && k != j
    ensures SessionOk(t, k)
  {
    hide Held, Local, FateOk, Core, FilesOk;
    CoreParts(s);
    OkSession(s, k);
    UnlinkHeld(s, t, j, y, ok);
    if s.sessions[k].pc.HoldsPart() {
      HolderHeld(s, k);
    }
  }

  lemma UnlinkSelf(s: State, t: State, j: nat, y: Download, ok: bool)
    requires Core(s) && UnlinkShape(s, t, j, y, ok) && Local(y) && FateOk(y)
    requires y.m.filePath == PartFile && !Exact(y.pc) && (y.Settled() ==> s.sessions[j].Settled())
    ensures SessionOk(t, j)
  {
    hide Core, FilesOk, Held;
    CoreParts(s);
    OkSession(s, j);
    UnlinkHeld(s, t, j, y, ok);
    HolderHeld(s, j);
  }

  lemma UnlinkStep(s: State, j: nat, w: Work)
    requires ActiveOk(s) && j < |s.sessions| && CanWork(s.sessions[j], w) && (w.Unlink? || w.RemovePart? || w == Rename(false))
    requires s.sessions[j].inode.Some?
    ensures UnlinkShape(s, Apply(s, Writer(j, w)), j, Next(s, s.sessions[j], w), w.ok)
  {}

  lemma UnlinkNext(s: State, x: Download, w: Work)
    requires CanWork(x, w) && (w.Unlink? || w.RemovePart? || w == Rename(false)) && Local(x)
    ensures Next(s, x, w).m.filePath == PartFile && (Next(s, x, w).Settled() ==> x.Settled())
  {}

  lemma UnlinkKeeps(s: State, j: nat, w: Work)
    requires Core(s) && j < |s.sessions| && CanWork(s.sessions[j], w) && (w.Unlink? || w.RemovePart? || w == Rename(false))
    ensures Core(Apply(s, Writer(j, w)))
  {
    hide Core, FilesOk, ActiveOk, Local, FateOk, Owned, Linked, Held, SessionOk, Backed, Apply, Next;
    var t, y := Apply(s, Writer(j, w)), Next(s, s.sessions[j], w);
    CoreParts(s);
    OkSession(s, j);
    HolderHeld(s, j) by { assert s.sessions[j].pc.HoldsPart(); }
    UnlinkStep(s, j, w);
    UnlinkNext(s, s.sessions[j], w);
    UnlinkFiles(s, t, j, y, w.ok);
    EmptiedBound(s);
    ReplacedActive(s, t, j, y);
    NextOk(s, s.sessions[j], w);
    UnlinkSelf(s, t, j, y, w.ok);
    forall k | 0 <= k < |t.sessions| ensures SessionOk(t, k) {
      if k != j {
        UnlinkOther(s, t, j, y, w.ok, k);
      }
    }
    IsCore(t);
  }

  // ---- Renaming the part file ----

  ghost predicate RenameShape(s: State, t: State, j: nat, y: Download) {
    && Replaces(s, t, j, y)
    && s.sessions[j].pc.Renaming? && y == s.sessions[j].(pc := Relinking, fate := Promoted)
    && y.key in s.part
    && t.part == s.part - {y.key} && t.artifact == s.artifact[y.key := s.part[y.key]]
    && t.promoted == s.promoted + {(y.key, s.part[y.key])}
    && t.inodes == s.inodes && t.faulty == s.faulty && t.bodies == s.bodies && t.synced == s.synced && t.emptied == s.emptied
  }

  lemma RenameFiles(s: State, t: State, j: nat, y: Download)
    requires Core(s) && RenameShape(s, t, j, y)
    ensures FilesOk(t)
  {
    OkSession(s, j);
    HolderHeld(s, j);
  }

  lemma RenameHeld(s: State, t: State, j: nat, y: Download)
    requires ActiveOk(s) && RenameShape(s, t, j, y)
    ensures !Held(t, y.key) && forall k :: k != y.key ==> Held(t, k) == Held(s, k)
  {}

  lemma RenameOther(s: State, t: State, j: nat, y: Download, k: nat)
    requires Core(s) && RenameShape(s, t, j, y) && k < |s.sessions| && k != j
    ensures SessionOk(t, k)
  {
    hide Held, Local, FateOk, Core, FilesOk;
    CoreParts(s);
    OkSession(s, k);
    RenameHeld(s, t, j, y);
    if s.sessions[k].pc.HoldsPart() {
      HolderHeld(s, k);
    }
  }

  lemma RenameSelf(s: State, t: State, j: nat, y: Download)
    requires Core(s) && RenameShape(s, t, j, y) && Local(y) && FateOk(y)
    ensures SessionOk(t, j)
  {
    hide Core, FilesOk, Held;
    CoreParts(s);
    OkSession(s, j);
    RenameHeld(s, t, j, y);
    HolderHeld(s, j);
  }

  lemma RenameStep(s: State, j: nat)
    requires Core(s) && j < |s.sessions| && s.sessions[j].pc.Renaming?
    ensures RenameShape(s, Apply(s, Writer(j, Rename(true))), j, Next(s, s.sessions[j], Rename(true)))
  {
    hide Core, FilesOk, ActiveOk;
    CoreParts(s);
    HolderHeld(s, j);
  }

  lemma RenameKeeps(s: State, j: nat)
    requires Core(s) && j < |s.sessions| && s.sessions[j].pc.Renaming?
    ensures Core(Apply(s, Writer(j, Rename(true))))
  {
    hide Core, FilesOk, ActiveOk, Local, FateOk, Owned, Linked, Held, SessionOk, Backed;
    var w := Rename(true);
    var t, y := Apply(s, Writer(j, w)), Next(s, s.sessions[j], w);
    CoreParts(s);
    RenameStep(s, j);
    RenameFiles(s, t, j, y);
    EmptiedBound(s);
    ReplacedActive(s, t, j, y);
    OkSession(s, j);
    NextOk(s, s.sessions[j], w);
    RenameSelf(s, t, j, y);
    forall k | 0 <= k < |t.sessions| ensures SessionOk(t, k) {
      if k != j {
        RenameOther(s, t, j, y, k);
      }
    }
    IsCore(t);
  }

  // ---- Reusing the artifact, and leaving ----

  ghost predicate ReuseShape(s: State, t: State, j: nat, y: Download) {
    && Replaces(s, t, j, y)
    && t == s.(sessions := t.sessions)
    && s.sessions[j].pc.Reusing? && y.pc.Revalidating? && y.hasFile == s.sessions[j].hasFile && y.fate == s.sessions[j].fate
    && (y.inode == None || (y.key in s.artifact && y.inode == Some(s.artifact[y.key]) && s.artifact[y.key] < |s.inodes|
                            && y.received == s.inodes[s.artifact[y.key]]))
  }

  lemma ReuseHeld(s: State, t: State, j: nat, y: Download)
    requires ReuseShape(s, t, j, y)
    ensures forall k :: Held(t, k) == Held(s, k)
  {}

  lemma ReuseOther(s: State, t: State, j: nat, y: Download, k: nat)
    requires Core(s) && ReuseShape(s, t, j, y) && k < |s.sessions| && k != j
    ensures SessionOk(t, k)
  {
    hide Held, Local, FateOk, Core, FilesOk;
    OkSession(s, k);
    ReuseHeld(s, t, j, y);
  }

  lemma ReuseSelf(s: State, t: State, j: nat, y: Download)
    requires Core(s) && ReuseShape(s, t, j, y) && Local(y) && FateOk(y)
    ensures SessionOk(t, j)
  {
    hide Held, Core;
    CoreParts(s);
    OkSession(s, j);
    ReuseHeld(s, t, j, y);
  }

  lemma ReuseStep(s: State, j: nat)
    requires j < |s.sessions| && CanWork(s.sessions[j], Reuse) && s.sessions[j].inode == None
    ensures ReuseShape(s, Apply(s, Writer(j, Reuse)), j, Next(s, s.sessions[j], Reuse))
  {}

  lemma ReuseKeeps(s: State, j: nat)
    requires Core(s) && j < |s.sessions| && CanWork(s.sessions[j], Reuse)
    ensures Core(Apply(s, Writer(j, Reuse)))
  {
    hide Core, FilesOk, ActiveOk, Local, FateOk, Owned, Linked, Held, SessionOk, Backed;
    var t, y := Apply(s, Writer(j, Reuse)), Next(s, s.sessions[j], Reuse);
    CoreParts(s);
    OkSession(s, j);
    ReusingHas(s.sessions[j]);
    ReuseStep(s, j);
    assert FilesOk(t) by { FilesSame(s, t); }
    EmptiedBound(s);
    ReplacedActive(s, t, j, y);
    NextOk(s, s.sessions[j], Reuse);
    ReuseSelf(s, t, j, y);
    forall k | 0 <= k < |t.sessions| ensures SessionOk(t, k) {
      if k != j {
        ReuseOther(s, t, j, y, k);
      }
    }
    IsCore(t);
  }

  lemma ReusingHas(x: Download)
    requires Local(x) && x.pc.Reusing?
    ensures x.inode == None && x.hasFile
  {}

  lemma FilesSame(s: State, t: State)
    requires FilesOk(s)
    requires t.inodes == s.inodes && t.part == s.part && t.artifact == s.artifact && t.promoted == s.promoted
    requires t.synced == s.synced && t.bodies == s.bodies
    ensures FilesOk(t)
  {}

  lemma LeaveActive(s: State, j: nat)
    requires Core(s) && j < |s.sessions| && s.sessions[j].pc.Leaving?
    ensures ActiveOk(Apply(s, Writer(j, Leave)))
  {
    hide SessionOk, FilesOk;
  }

  lemma LeaveHeld(s: State, j: nat)
    requires ActiveOk(s) && j < |s.sessions| && s.sessions[j].pc.Leaving?
    ensures forall k :: Held(Apply(s, Writer(j, Leave)), k) == Held(s, k)
  {}

  lemma LeaveSession(s: State, j: nat, k: nat)
    requires Core(s) && j < |s.sessions| && s.sessions[j].pc.Leaving? && k < |s.sessions|
    ensures SessionOk(Apply(s, Writer(j, Leave)), k)
  {
    hide Core, FilesOk, ActiveOk, Held, Local, FateOk;
    CoreParts(s);
    LeaveHeld(s, j);
    OkSession(s, k);
    OkSession(s, j);
    NextOk(s, s.sessions[j], Leave);
  }

  lemma LeaveKeeps(s: State, j: nat)
    requires Core(s) && j < |s.sessions| && s.sessions[j].pc.Leaving?
    ensures Core(Apply(s, Writer(j, Leave)))
  {
    hide Core, FilesOk, ActiveOk, SessionOk;
    var t := Apply(s, Writer(j, Leave));
    CoreParts(s);
    LeaveActive(s, j);
    assert FilesOk(t) by { FilesSame(s, t); }
    forall k | 0 <= k < |t.sessions| ensures SessionOk(t, k) {
      LeaveSession(s, j, k);
    }
    IsCore(t);
  }
}
