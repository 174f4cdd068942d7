/** The Content-Length of a response holds of everything that comes of it: the session, the file it
    promotes, and every response served from it. */
module DownloadLengths {
  import opened Records
  import opened SessionMonitor
  import opened Downloads
  import opened DownloadInvariant
  import opened DownloadSteps
  import opened DownloadRuns
  import opened DownloadTheorems
  import opened DownloadReaders

  // ---- The file of a promoted session ----

  /** A promoted file is exactly what its session received. */
  predicate PromotedExact(s: State, x: Download) {
    x.fate == Promoted ==>
      && x.inode.Some? && (x.key, x.inode.value) in s.promoted
      && x.inode.value < |s.inodes| && s.inodes[x.inode.value] == x.received
  }

  ghost predicate Exactly(s: State) { forall j :: 0 <= j < |s.sessions| ==> PromotedExact(s, s.sessions[j]) }

  lemma ExactStays(s: State, step: Step, x: Download)
    requires Inv(s) && Enabled(s, step) && PromotedExact(s, x)
    ensures PromotedExact(Apply(s, step), x)
  {
    hide Inv, Apply, Enabled;
    if x.fate == Promoted {
      PromotedStays(s, step, x.key, x.inode.value);
    }
  }

  lemma PromotedNext(s: State, x: Download, w: Work)
    requires Local(x) && FateOk(x) && CanWork(x, w) && Next(s, x, w).fate == Promoted
    ensures var y := Next(s, x, w); y.key == x.key && y.inode == x.inode && y.received == x.received
    ensures x.fate == Promoted || (w.Rename? && w.ok && x.pc.Renaming? && x.inode.Some?)
  {}

  lemma ExactWriter(s: State, j: nat, w: Work)
    requires Inv(s) && j < |s.sessions| && CanWork(s.sessions[j], w) && PromotedExact(s, s.sessions[j])
    ensures PromotedExact(Apply(s, Writer(j, w)), Next(s, s.sessions[j], w))
  {
    hide Core, RequestsOk, Next, Owned, Linked, Local, FateOk;
    var x, y := s.sessions[j], Next(s, s.sessions[j], w);
    OkSession(s, j);
    if y.fate == Promoted {
      PromotedNext(s, x, w);
      if x.fate == Promoted {
        ExactStays(s, Writer(j, w), x);
      } else {
        assert s.part[x.key] == x.inode.value;
      }
    }
  }

  lemma ExactStep(s: State, step: Step)
    requires Inv(s) && Exactly(s) && Enabled(s, step)
    ensures Exactly(Apply(s, step))
  {
    hide Core, RequestsOk, Next, Effect, Answer, PromotedExact;
    var t := Apply(s, step);
    forall j | 0 <= j < |t.sessions| ensures PromotedExact(t, t.sessions[j]) {
      if step.Writer? {
        EffectOnward(s, s.sessions[step.j], step.work);
      }
      if step.Writer? && step.j == j {
        ExactWriter(s, j, step.work);
      } else if j < |s.sessions| {
        ExactStays(s, step, s.sessions[j]);
      } else {
        NewExact(t, t.sessions[j]);
      }
    }
  }

  lemma NewExact(s: State, x: Download)
    requires x.fate == Undecided
    ensures PromotedExact(s, x)
  {}

  lemma {:induction false} ExactAlong(s: State, steps: seq<Step>)
    requires Inv(s) && Exactly(s) && IsRun(s, steps)
    ensures Exactly(After(s, steps))
    decreases |steps|
  {
    hide Inv, Exactly, Enabled, Apply;
    if steps != [] {
      StepKeeps(s, steps[0]);
      ExactStep(s, steps[0]);
      ExactAlong(Apply(s, steps[0]), steps[1..]);
    }
  }

  lemma EveryPromoted(s: State, j: nat)
    requires Reachable(s) && j < |s.sessions|
    ensures PromotedExact(s, s.sessions[j])
  {
    hide Inv, PromotedExact;
    var steps :| IsRun(EMPTY, steps) && After(EMPTY, steps) == s;
    EmptyOk();
    ExactAlong(EMPTY, steps);
  }

  // ---- From the headers on ----

  /** What holds of session j of a response of Content-Length `total`, or of unknown length if that is
      negative: what it announces, and how long its body is once it is promoted or complete. */
  predicate OfLength(s: State, j: nat, total: int) {
    && j < |s.sessions| && s.sessions[j].m.ready && s.sessions[j].m.total == total
    && (total >= 0 && (s.sessions[j].fate == Promoted || (s.sessions[j].m.complete && !s.sessions[j].m.failed)) ==>
          |s.sessions[j].received| == total)
    && (total >= 0 && s.sessions[j].fate == Promoted ==>
          s.sessions[j].inode.Some? && s.sessions[j].inode.value < |s.inodes| && |s.inodes[s.sessions[j].inode.value]| == total)
  }

  lemma WholeLength(x: Download)
    requires Local(x) && FateOk(x) && x.m.ready && x.fate != Dropped && x.m.total >= 0
    requires x.fate == Promoted || (x.m.complete && !x.m.failed)
    ensures |x.received| == x.m.total
  {}

  lemma AfterHeaders(s: State, j: nat, total: int)
    requires Inv(s) && j < |s.sessions| && CanWork(s.sessions[j], FetchOk(total))
    ensures var t := Apply(s, Writer(j, FetchOk(total)));
      j < |t.sessions| && t.sessions[j].m.ready && t.sessions[j].m.total == total && t.sessions[j].fate == Undecided
  {
    hide Core, RequestsOk;
    OkSession(s, j);
  }

  lemma GrownLength(x: Download, y: Download)
    requires Grows(x, y) && x.m.ready && x.fate == Undecided
    ensures y.m.ready && y.m.total == x.m.total && y.fate != Dropped
  {}

  /** From the response's headers on, whatever anybody does short of a crash, the session announces its
      Content-Length; and its body, and the file it promotes, have exactly that many bytes. */
  lemma LengthIsKept(s: State, j: nat, total: int, steps: seq<Step>)
    requires Reachable(s) && j < |s.sessions| && CanWork(s.sessions[j], FetchOk(total))
    requires IsRun(Apply(s, Writer(j, FetchOk(total))), steps) && CrashFree(steps)
    ensures OfLength(After(Apply(s, Writer(j, FetchOk(total))), steps), j, total)
  {
    hide Reachable, Core, RequestsOk, Apply, IsRun, After, CrashFree, Grows, Local, FateOk, Backed, Owned, Linked;
    var t := Apply(s, Writer(j, FetchOk(total)));
    var e := After(t, steps);
    EveryRun(s);
    AfterHeaders(s, j, total);
    Reaches(s, Writer(j, FetchOk(total)));
    EveryRun(t);
    SessionAlong(t, j, steps);
    GrownLength(t.sessions[j], e.sessions[j]);
    RunReaches(t, steps);
    EveryRun(e);
    OkSession(e, j);
    EveryPromoted(e, j);
    if total >= 0 && (e.sessions[j].fate == Promoted || (e.sessions[j].m.complete && !e.sessions[j].m.failed)) {
      WholeLength(e.sessions[j]);
    }
  }

  /** What a request is told of a response of Content-Length `total`, and how much it is sent. */
  predicate Told(q: Request, total: int) {
    && (q.Snapped? ==> q.total == total)
    && (q.Streaming? || q.Returned? ==> (q.start == 0 && q.end == -1) || q.start <= q.end < total)
    && (q.Returned? && q.end >= 0 ==> |q.sent| == q.end - q.start + 1)
    && (q.Returned? && q.end < 0 && total >= 0 ==> |q.sent| == total)
  }

  /** So every request of the session is told that length, can ask for a part below it only, and has been sent
      as much as it was told when its response ends without an error. */
  lemma LengthIsTold(s: State, j: nat, total: int, steps: seq<Step>, q: Request)
    requires Reachable(s) && j < |s.sessions| && CanWork(s.sessions[j], FetchOk(total))
    requires IsRun(Apply(s, Writer(j, FetchOk(total))), steps) && CrashFree(steps)
    requires q in After(Apply(s, Writer(j, FetchOk(total))), steps).requests
    requires (q.Snapped? || q.Streaming? || q.Returned?) && q.sid == j
    ensures Told(q, total)
  {
    hide Reachable, Core, Apply, IsRun, After, CrashFree;
    var t := Apply(s, Writer(j, FetchOk(total)));
    var e := After(t, steps);
    LengthIsKept(s, j, total, steps);
    Reaches(s, Writer(j, FetchOk(total)));
    RunReaches(t, steps);
    TellsTotal(e, q);
    if q.Returned? {
      AnnouncedLength(e, q);
    }
  }

  lemma TellsTotal(s: State, q: Request)
    requires Reachable(s) && q in s.requests && (q.Snapped? || q.Streaming? || q.Returned?)
    ensures q.sid < |s.sessions|
    ensures q.Snapped? ==> q.total == s.sessions[q.sid].m.total
    ensures q.Streaming? || q.Returned? ==> RangeOf(s.sessions[q.sid].m.total, q.start, q.end)
  {
    hide Reachable, Core, SentOk, Delivered;
    EveryRun(s);
    assert RequestOk(s, q);
  }
}
