/** What the sessions of a key leave to one another: the part file, and the artifact. A second invariant,
    beside the one of DownloadInvariant. */
module DownloadHistory {
  import opened Records
  import opened SessionMonitor
  import opened Downloads
  import opened DownloadInvariant
  import opened DownloadSteps
  import opened DownloadRuns

  // ---- The invariant ----

  /** A later session of the key of session j opened the part file. */
  ghost predicate OpenedLater(xs: seq<Download>, j: nat)
    requires j < |xs|
  {
    exists k :: j < k < |xs| && xs[k].key == xs[j].key && xs[k].hasFile
  }

  /** A later session of the key of session j made its file the artifact. */
  ghost predicate PromotedLater(xs: seq<Download>, j: nat)
    requires j < |xs|
  {
    exists k :: j < k < |xs| && xs[k].key == xs[j].key && xs[k].fate == Promoted
  }

  /** The session of an unfinished download is the last of its key. */
  ghost predicate IsLast(xs: seq<Download>, j: nat)
    requires j < |xs|
  {
    !xs[j].pc.Gone? ==> forall k :: j < k < |xs| ==> xs[k].key != xs[j].key
  }

  /** A part file that was left behind is there until the next session of the key empties it; and only
      such a file, or one that is held, is under the part path. */
  ghost predicate PartTraced(s: State, j: nat)
    requires j < |s.sessions|
  {
    var x := s.sessions[j];
    && (j in s.emptied <==> x.fate == Left && OpenedLater(s.sessions, j))
    && (x.fate == Left && j !in s.emptied ==> x.key in s.part && x.inode == Some(s.part[x.key]))
    && (x.inode.Some? && x.key in s.part && x.inode.value == s.part[x.key] && j !in s.emptied ==>
          x.fate == Left || x.pc.HoldsPart())
    && (!x.pc.Gone? && x.hasFile && x.key in s.part ==> x.pc.HoldsPart() || x.fate == Left || x.fate == Dropped)
  }

  /** The artifact path leads to a session's file until a later session of the key takes the path. */
  ghost predicate ArtifactTraced(s: State, j: nat)
    requires j < |s.sessions|
  {
    var x := s.sessions[j];
    (x.fate == Promoted || x.fate == Dropped) && x.inode.Some? ==>
      && (x.key, x.inode.value) in s.promoted
      && (x.key in s.artifact ==> (s.artifact[x.key] == x.inode.value <==> !PromotedLater(s.sessions, j)))
  }

  ghost predicate Traced(s: State, j: nat)
    requires j < |s.sessions|
  {
    IsLast(s.sessions, j) && PartTraced(s, j) && ArtifactTraced(s, j)
  }

  ghost predicate History(s: State) { forall j :: 0 <= j < |s.sessions| ==> Traced(s, j) }

  lemma IsTraced(s: State, j: nat)
    requires History(s) && j < |s.sessions|
    ensures Traced(s, j)
  {}

  // ---- Sessions after a step of one of them ----

  lemma LaterStays(xs: seq<Download>, j: nat, y: Download, k: nat)
    requires j < |xs| && k < |xs| && y.key == xs[j].key && y.hasFile == xs[j].hasFile
    ensures OpenedLater(xs[j := y], k) == OpenedLater(xs, k)
  {
    var ys := xs[j := y];
    assert forall m :: 0 <= m < |xs| ==> ys[m].key == xs[m].key && ys[m].hasFile == xs[m].hasFile;
    if OpenedLater(xs, k) {
      var m :| k < m < |xs| && xs[m].key == xs[k].key && xs[m].hasFile;
      assert ys[m].key == ys[k].key && ys[m].hasFile;
    }
  }

  lemma PromotedStaysLater(xs: seq<Download>, j: nat, y: Download, k: nat)
    requires j < |xs| && k < |xs| && y.key == xs[j].key && (y.fate == Promoted <==> xs[j].fate == Promoted)
    ensures PromotedLater(xs[j := y], k) == PromotedLater(xs, k)
  {
    var ys := xs[j := y];
    assert forall m :: 0 <= m < |xs| ==> ys[m].key == xs[m].key && (ys[m].fate == Promoted <==> xs[m].fate == Promoted);
    if PromotedLater(xs, k) {
      var m :| k < m < |xs| && xs[m].key == xs[k].key && xs[m].fate == Promoted;
      assert ys[m].key == ys[k].key && ys[m].fate == Promoted;
    }
  }

  lemma LastStays(xs: seq<Download>, j: nat, y: Download, k: nat)
    requires j < |xs| && k < |xs| && y.key == xs[j].key && (xs[j].pc.Gone? ==> y.pc.Gone?) && IsLast(xs, k)
    ensures IsLast(xs[j := y], k)
  {}

  /** The sessions of a key are one after the other: those beside the one in the map came before it. */
  lemma OthersAreEarlier(s: State, j: nat, k: nat)
    requires History(s) && ActiveOk(s) && j < |s.sessions| && k < |s.sessions| && k != j
    requires !s.sessions[j].pc.Gone? && s.sessions[k].key == s.sessions[j].key
    ensures k < j && s.sessions[k].pc.Gone?
  {
    assert Traced(s, j);
  }

  // ---- Steps that leave the paths alone ----

  ghost predicate SamePaths(s: State, t: State) {
    t.part == s.part && t.artifact == s.artifact && t.promoted == s.promoted && t.emptied == s.emptied
  }

  ghost predicate QuietShape(s: State, t: State, j: nat, y: Download) {
    && SamePaths(s, t) && j < |s.sessions| && t.sessions == s.sessions[j := y] && y.key == s.sessions[j].key
    && y.hasFile == s.sessions[j].hasFile && y.fate == s.sessions[j].fate && y.inode == s.sessions[j].inode
    && y.pc.HoldsPart() == s.sessions[j].pc.HoldsPart() && (s.sessions[j].pc.Gone? ==> y.pc.Gone?)
  }

  lemma QuietTraced(s: State, t: State, j: nat, y: Download, k: nat)
    requires History(s) && QuietShape(s, t, j, y) && k < |s.sessions|
    ensures Traced(t, k)
  {
    hide OpenedLater, PromotedLater, IsLast;
    IsTraced(s, k);
    LaterStays(s.sessions, j, y, k);
    PromotedStaysLater(s.sessions, j, y, k);
    LastStays(s.sessions, j, y, k);
  }

  // ---- Opening the part file ----

  lemma LaterOpened(xs: seq<Download>, j: nat, y: Download, k: nat)
    requires j < |xs| && k < |xs| && k != j && y.key == xs[j].key && y.hasFile && !xs[j].hasFile
    ensures OpenedLater(xs[j := y], k) <==> OpenedLater(xs, k) || (k < j && xs[k].key == y.key)
  {
    var ys := xs[j := y];
    assert forall m :: 0 <= m < |xs| && m != j ==> ys[m] == xs[m];
    if OpenedLater(xs, k) {
      var m :| k < m < |xs| && xs[m].key == xs[k].key && xs[m].hasFile;
      assert ys[m].key == ys[k].key && ys[m].hasFile;
    }
    if k < j && xs[k].key == y.key {
      assert ys[j].key == ys[k].key && ys[j].hasFile;
    }
  }

  lemma OpenedSelf(s: State, t: State, j: nat, y: Download, i: nat)
    requires Core(s) && History(s) && (MadeShape(s, t, j, y) || TruncatedShape(s, t, j, y, i)) && i == y.inode.value
    ensures Traced(t, j)
  {
    hide Core, History;
    IsTraced(s, j);
    OkSession(s, j);
    CoreParts(s);
    LastStays(s.sessions, j, y, j);
  }

  /** Opening empties what the last session of the key left behind, and nothing else. */
  lemma OpenedOther(s: State, t: State, j: nat, y: Download, i: nat, k: nat)
    requires Core(s) && History(s) && (MadeShape(s, t, j, y) || TruncatedShape(s, t, j, y, i)) && i == y.inode.value
    requires k < |s.sessions| && k != j
    ensures Traced(t, k)
  {
    hide Core, History, OpenedLater, PromotedLater, IsLast, FilesOk, ActiveOk, Local;
    CoreParts(s);
    IsTraced(s, k);
    OkSession(s, j);
    OkSession(s, k);
    OpeningHasNoFile(s.sessions[j]);
    LaterOpened(s.sessions, j, y, k);
    PromotedStaysLater(s.sessions, j, y, k);
    LastStays(s.sessions, j, y, k);
    if s.sessions[k].key == y.key {
      OthersAreEarlier(s, j, k);
    }
  }

  lemma OpeningHasNoFile(x: Download)
    requires Local(x) && x.pc.Opening?
    ensures !x.hasFile && x.inode == None
  {}

  // ---- Removing or renaming the part file, or failing to ----

  /** While a session holds the part file, no other one has it and has not lost it. */
  lemma HolderIsAlone(s: State, j: nat, k: nat)
    requires Core(s) && History(s) && j < |s.sessions| && k < |s.sessions| && k != j
    requires s.sessions[j].pc.HoldsPart() && s.sessions[k].key == s.sessions[j].key && k !in s.emptied
    ensures s.sessions[k].fate != Left && s.sessions[k].inode != s.sessions[j].inode && s.sessions[k].pc.Gone?
  {
    hide Core, History;
    CoreParts(s);
    IsTraced(s, k);
    HolderHeld(s, j);
    OthersAreEarlier(s, j, k);
    if s.sessions[k].inode == s.sessions[j].inode {
      NotShared(s, j, k);
    }
  }

  lemma UnlinkedSelf(s: State, t: State, j: nat, y: Download, ok: bool)
    requires Core(s) && History(s) && UnlinkShape(s, t, j, y, ok)
    ensures Traced(t, j)
  {
    hide Core, History, OpenedLater, PromotedLater;
    IsTraced(s, j);
    OkSession(s, j);
    HolderHeld(s, j);
    LaterStays(s.sessions, j, y, j);
    LastStays(s.sessions, j, y, j);
    NoneLater(s.sessions, j);
  }

  lemma NoneLater(xs: seq<Download>, j: nat)
    requires j < |xs| && IsLast(xs, j) && !xs[j].pc.Gone?
    ensures !OpenedLater(xs, j) && !PromotedLater(xs, j)
  {}

  lemma UnlinkedOther(s: State, t: State, j: nat, y: Download, ok: bool, k: nat)
    requires Core(s) && History(s) && UnlinkShape(s, t, j, y, ok) && k < |s.sessions| && k != j
    ensures Traced(t, k)
  {
    hide Core, History, OpenedLater, PromotedLater, IsLast;
    IsTraced(s, k);
    OkSession(s, j);
    OkSession(s, k);
    HolderHeld(s, j);
    LaterStays(s.sessions, j, y, k);
    PromotedStaysLater(s.sessions, j, y, k);
    LastStays(s.sessions, j, y, k);
    if s.sessions[k].key == y.key && k !in s.emptied {
      HolderIsAlone(s, j, k);
    }
  }

  lemma LaterPromoted(xs: seq<Download>, j: nat, y: Download, k: nat)
    requires j < |xs| && k < |xs| && k != j && y.key == xs[j].key && y.fate == Promoted && xs[j].fate != Promoted
    ensures PromotedLater(xs[j := y], k) <==> PromotedLater(xs, k) || (k < j && xs[k].key == y.key)
  {
    var ys := xs[j := y];
    assert forall m :: 0 <= m < |xs| && m != j ==> ys[m] == xs[m];
    if PromotedLater(xs, k) {
      var m :| k < m < |xs| && xs[m].key == xs[k].key && xs[m].fate == Promoted;
      assert ys[m].key == ys[k].key && ys[m].fate == Promoted;
    }
    if k < j && xs[k].key == y.key {
      assert ys[j].key == ys[k].key && ys[j].fate == Promoted;
    }
  }

  lemma RenamedSelf(s: State, t: State, j: nat, y: Download)
    requires Core(s) && History(s) && RenameShape(s, t, j, y)
    ensures Traced(t, j)
  {
    hide Core, History, OpenedLater, PromotedLater;
    IsTraced(s, j);
    OkSession(s, j);
    HolderHeld(s, j);
    LastStays(s.sessions, j, y, j);
    NoneLater(t.sessions, j);
  }

  lemma RenamedOther(s: State, t: State, j: nat, y: Download, k: nat)
    requires Core(s) && History(s) && RenameShape(s, t, j, y) && k < |s.sessions| && k != j
    ensures Traced(t, k)
  {
    hide Core, History, OpenedLater, PromotedLater, IsLast;
    CoreParts(s);
    IsTraced(s, k);
    OkSession(s, j);
    OkSession(s, k);
    HolderHeld(s, j);
    LaterStays(s.sessions, j, y, k);
    LaterPromoted(s.sessions, j, y, k);
    LastStays(s.sessions, j, y, k);
    if s.sessions[k].key == y.key {
      OthersAreEarlier(s, j, k);
      if k !in s.emptied {
        HolderIsAlone(s, j, k);
      }
    }
  }

  // ---- Reusing the artifact ----

  lemma ReusedTraced(s: State, t: State, j: nat, y: Download, k: nat)
    requires Core(s) && History(s) && ReuseShape(s, t, j, y) && k < |s.sessions|
    ensures Traced(t, k)
  {
    hide Core, History, OpenedLater, PromotedLater;
    CoreParts(s);
    IsTraced(s, k);
    OkSession(s, j);
    LaterStays(s.sessions, j, y, k);
    PromotedStaysLater(s.sessions, j, y, k);
    LastStays(s.sessions, j, y, k);
    if k == j {
      NoneLater(t.sessions, j);
    }
  }

  // ---- Steps and runs ----

  lemma IsHistory(s: State)
    requires forall j :: 0 <= j < |s.sessions| ==> Traced(s, j)
    ensures History(s)
  {}

  lemma QuietStep(s: State, j: nat, w: Work)
    requires Core(s) && j < |s.sessions| && CanWork(s.sessions[j], w)
    requires Steady(w) || w.ReadChunk? || w.WriteFails? || w.Leave?
    ensures QuietShape(s, Apply(s, Writer(j, w)), j, Next(s, s.sessions[j], w))
  {
    hide Core;
    if Steady(w) {
      SteadyStep(s, j, w);
    } else if !w.Leave? {
      AppendStep(s, j, w);
    }
  }

  lemma OpenKeepsHistory(s: State, j: nat)
    requires Core(s) && History(s) && j < |s.sessions| && s.sessions[j].pc.Opening?
    ensures History(Apply(s, Writer(j, OpenPart(true))))
  {
    hide Core, History, Traced, Apply, Next, MadeShape, TruncatedShape, FilesOk, ActiveOk;
    var t, y := Apply(s, Writer(j, OpenPart(true))), Next(s, s.sessions[j], OpenPart(true));
    CoreParts(s);
    OpenStep(s, j);
    WriterSessions(s, j, OpenPart(true));
    forall k | 0 <= k < |t.sessions| ensures Traced(t, k) {
      if k == j {
        OpenedSelf(s, t, j, y, y.inode.value);
      } else {
        OpenedOther(s, t, j, y, y.inode.value, k);
      }
    }
    IsHistory(t);
  }

  lemma WriterSessions(s: State, j: nat, w: Work)
    requires j < |s.sessions| && CanWork(s.sessions[j], w)
    ensures |Apply(s, Writer(j, w)).sessions| == |s.sessions|
  {}

  lemma UnlinkKeepsHistory(s: State, j: nat, w: Work)
    requires Core(s) && History(s) && j < |s.sessions| && CanWork(s.sessions[j], w)
    requires w.Unlink? || w.RemovePart? || w == Rename(false)
    ensures History(Apply(s, Writer(j, w)))
  {
    hide Core, History, Traced, Apply, Next, UnlinkShape, FilesOk, ActiveOk;
    var t, y := Apply(s, Writer(j, w)), Next(s, s.sessions[j], w);
    CoreParts(s);
    HolderHeld(s, j);
    UnlinkStep(s, j, w);
    WriterSessions(s, j, w);
    forall k | 0 <= k < |t.sessions| ensures Traced(t, k) {
      if k == j {
        UnlinkedSelf(s, t, j, y, w.ok);
      } else {
        UnlinkedOther(s, t, j, y, w.ok, k);
      }
    }
    IsHistory(t);
  }

  lemma RenameKeepsHistory(s: State, j: nat)
    requires Core(s) && History(s) && j < |s.sessions| && s.sessions[j].pc.Renaming?
    ensures History(Apply(s, Writer(j, Rename(true))))
  {
    hide Core, History, Traced, Apply, Next, RenameShape;
    var t, y := Apply(s, Writer(j, Rename(true))), Next(s, s.sessions[j], Rename(true));
    RenameStep(s, j);
    WriterSessions(s, j, Rename(true));
    forall k | 0 <= k < |t.sessions| ensures Traced(t, k) {
      if k == j {
        RenamedSelf(s, t, j, y);
      } else {
        RenamedOther(s, t, j, y, k);
      }
    }
    IsHistory(t);
  }

  lemma ReuseKeepsHistory(s: State, j: nat)
    requires Core(s) && History(s) && j < |s.sessions| && CanWork(s.sessions[j], Reuse)
    ensures History(Apply(s, Writer(j, Reuse)))
  {
    hide Core, History, Traced, Apply, Next, ReuseShape, Local;
    var t, y := Apply(s, Writer(j, Reuse)), Next(s, s.sessions[j], Reuse);
    OkSession(s, j);
    ReusingHas(s.sessions[j]);
    ReuseStep(s, j);
    WriterSessions(s, j, Reuse);
    forall k | 0 <= k < |t.sessions| ensures Traced(t, k) {
      ReusedTraced(s, t, j, y, k);
    }
    IsHistory(t);
  }

  lemma WriterKeepsHistory(s: State, j: nat, w: Work)
    requires Core(s) && History(s) && j < |s.sessions| && CanWork(s.sessions[j], w)
    ensures History(Apply(s, Writer(j, w)))
  {
    hide Core, History, Traced, Apply, Next, QuietShape;
    if Steady(w) || w.ReadChunk? || w.WriteFails? || w.Leave? {
      var t, y := Apply(s, Writer(j, w)), Next(s, s.sessions[j], w);
      QuietStep(s, j, w);
      WriterSessions(s, j, w);
      forall k | 0 <= k < |t.sessions| ensures Traced(t, k) {
        QuietTraced(s, t, j, y, k);
      }
      IsHistory(t);
    } else {
      match w {
        case OpenPart(_) => OpenKeepsHistory(s, j);
        case Rename(ok) => if ok { RenameKeepsHistory(s, j); } else { UnlinkKeepsHistory(s, j, w); }
        case Unlink(_) => UnlinkKeepsHistory(s, j, w);
        case RemovePart(_) => UnlinkKeepsHistory(s, j, w);
        case Reuse => ReuseKeepsHistory(s, j);
      }
    }
  }

  lemma LaterWithNew(xs: seq<Download>, n: Download, k: nat)
    requires k < |xs| && !n.hasFile && n.fate != Promoted
    ensures OpenedLater(xs + [n], k) == OpenedLater(xs, k) && PromotedLater(xs + [n], k) == PromotedLater(xs, k)
  {
    var ys := xs + [n];
    assert forall m :: 0 <= m < |xs| ==> ys[m] == xs[m];
    if OpenedLater(xs, k) {
      var m :| k < m < |xs| && xs[m].key == xs[k].key && xs[m].hasFile;
      assert ys[m].key == ys[k].key && ys[m].hasFile;
    }
    if PromotedLater(xs, k) {
      var m :| k < m < |xs| && xs[m].key == xs[k].key && xs[m].fate == Promoted;
      assert ys[m].key == ys[k].key && ys[m].fate == Promoted;
    }
  }

  lemma StartedTraced(s: State, key: Key, prior: Option<nat>, k: nat)
    requires Core(s) && History(s) && k < |Started(s, key, prior).sessions|
    ensures Traced(Started(s, key, prior), k)
  {
    hide Core, History, OpenedLater, PromotedLater, FilesOk;
    CoreParts(s);
    if k < |s.sessions| {
      IsTraced(s, k);
      if key !in s.active {
        LaterWithNew(s.sessions, Started(s, key, prior).sessions[|s.sessions|], k);
      }
    } else {
      EmptiedBound(s);
      NoneLater(Started(s, key, prior).sessions, k);
    }
  }

  lemma StartedKeepsHistory(s: State, key: Key, prior: Option<nat>)
    requires Core(s) && History(s)
    ensures History(Started(s, key, prior))
  {
    hide Core, History, Traced, Started;
    var t := Started(s, key, prior);
    forall k | 0 <= k < |t.sessions| ensures Traced(t, k) {
      StartedTraced(s, key, prior, k);
    }
    IsHistory(t);
  }

  lemma SameHistory(s: State, t: State)
    requires History(s) && t.sessions == s.sessions && t.part == s.part && t.promoted == s.promoted && t.emptied == s.emptied
    requires forall k :: k in t.artifact ==> k in s.artifact && t.artifact[k] == s.artifact[k]
    ensures History(t)
  {
    hide History, OpenedLater, PromotedLater, IsLast;
    forall k | 0 <= k < |t.sessions| ensures Traced(t, k) {
      IsTraced(s, k);
    }
    IsHistory(t);
  }

  lemma StepKeepsHistory(s: State, step: Step)
    requires Core(s) && History(s) && Enabled(s, step)
    ensures History(Apply(s, step))
  {
    hide Core, History, Effect, Next, Started, Answer, CanAsk, CanWork;
    match step {
      case Writer(j, w) => WriterKeepsHistory(s, j, w);
      case Reader(r, a) =>
        var q := s.requests[r];
        if a.Join? {
          MissesJoin(s, q, a);
          StartedKeepsHistory(s, q.key, q.prior);
          SameHistory(Started(s, q.key, q.prior), Apply(s, step));
        } else {
          SameHistory(s, Apply(s, step));
        }
      case Prefetch(key, prior) => StartedKeepsHistory(s, key, prior);
      case Crash(_, _, _, _, _) => IsHistory(Apply(s, step));
      case _ => SameHistory(s, Apply(s, step));
    }
  }

  lemma MissesJoin(s: State, q: Request, a: Ask)
    requires CanAsk(s, q, a) && a.Join?
    ensures q.Missing?
  {}

  lemma {:induction false} RunKeepsHistory(s: State, steps: seq<Step>)
    requires Inv(s) && History(s) && IsRun(s, steps)
    ensures History(After(s, steps))
    decreases |steps|
  {
    hide Core, RequestsOk, History, Enabled, Apply;
    if steps != [] {
      StepKeeps(s, steps[0]);
      StepKeepsHistory(s, steps[0]);
      RunKeepsHistory(Apply(s, steps[0]), steps[1..]);
    }
  }

  /** Both invariants hold of every reachable state. */
  lemma EveryHistory(s: State)
    requires Reachable(s)
    ensures Inv(s) && History(s)
  {
    hide Inv, History;
    EveryRun(s);
    var steps :| IsRun(EMPTY, steps) && After(EMPTY, steps) == s;
    EmptyOk();
    IsHistory(EMPTY);
    RunKeepsHistory(EMPTY, steps);
  }
}
