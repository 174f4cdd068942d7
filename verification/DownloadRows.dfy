/** When the row of a key and its artifact agree on the size. */
module DownloadRows {
  import opened Records
  import opened SessionMonitor
  import opened Downloads
  import opened DownloadInvariant
  import opened DownloadSteps
  import opened DownloadRuns
  import opened DownloadHistory
  import opened DownloadTheorems

  predicate RowAgrees(s: State, key: Key) {
    key in s.rows && key in s.artifact ==> s.artifact[key] < |s.inodes| && s.rows[key] == |s.inodes[s.artifact[key]]|
  }

  /** The session has promoted its file and not recorded it: not yet, or never, because recording failed. */
  predicate Unrecorded(x: Download) {
    x.fate == Promoted && !(x.pc.Finishing? && !x.pc.failed) && !(x.m.complete && !x.m.failed)
  }

  /** The artifact of the key is that of such a session. */
  ghost predicate LastUnrecorded(s: State, key: Key) {
    exists j :: 0 <= j < |s.sessions| && s.sessions[j].key == key && Unrecorded(s.sessions[j]) && !PromotedLater(s.sessions, j)
  }

  /** Row and artifact agree, unless the artifact is that of a session that has not recorded it. */
  ghost predicate RowTraced(s: State, key: Key) { RowAgrees(s, key) || LastUnrecorded(s, key) }

  // ---- One step ----

  lemma UnrecordedStays(s: State, x: Download, w: Work)
    requires Local(x) && FateOk(x) && CanWork(x, w) && Unrecorded(x) && w != Work.Record(true)
    ensures Unrecorded(Next(s, x, w))
  {}

  /** Only a rename changes which file is the artifact, and only a record what the row says of it. */
  lemma EffectOnRows(s: State, x: Download, w: Work, key: Key)
    requires CanWork(x, w) && !(x.key == key && (w == Rename(true) || w == Work.Record(true)))
    ensures var t := Effect(s, x, w);
      && (key in t.rows <==> key in s.rows) && (key in s.rows ==> t.rows[key] == s.rows[key])
      && (key in t.artifact <==> key in s.artifact) && (key in s.artifact ==> t.artifact[key] == s.artifact[key])
  {}

  lemma WriterKeepsAgreement(s: State, j: nat, w: Work, key: Key)
    requires Core(s) && j < |s.sessions| && CanWork(s.sessions[j], w) && RowAgrees(s, key)
    requires !(s.sessions[j].key == key && (w == Rename(true) || w == Work.Record(true)))
    ensures RowAgrees(Apply(s, Writer(j, w)), key)
  {
    hide SessionOk, ActiveOk, Effect, Next;
    EffectOnRows(s, s.sessions[j], w, key);
    if key in s.artifact {
      WriterLeavesPromoted(s, j, w, key, s.artifact[key]);
    }
  }

  /** Recording makes the row agree with the artifact. */
  lemma RecordMakesAgree(s: State, j: nat)
    requires Core(s) && j < |s.sessions| && s.sessions[j].pc.Recording?
    ensures RowAgrees(Apply(s, Writer(j, Work.Record(true))), s.sessions[j].key)
  {
    OkSession(s, j);
  }

  lemma OthersKeepAgreement(s: State, step: Step, key: Key)
    requires Enabled(s, step) && !step.Crash? && !step.Writer? && RowAgrees(s, key)
    ensures RowAgrees(Apply(s, step), key)
  {
    hide Answer;
  }

  /** The step promotes a file of another length than the row's. */
  predicate PromotesOther(s: State, step: Step, key: Key) {
    && step.Writer? && step.j < |s.sessions| && step.work == Rename(true) && s.sessions[step.j].key == key
    && key in s.rows && |s.sessions[step.j].received| != s.rows[key]
  }

  /** An agreement is broken by such a step, and short of the end of the process by no other. */
  lemma BrokenIff(s: State, step: Step, key: Key)
    requires Reachable(s) && Enabled(s, step) && !step.Crash? && RowAgrees(s, key)
    ensures !RowAgrees(Apply(s, step), key) <==> PromotesOther(s, step, key)
  {
    hide Reachable, Core, RequestsOk, RowAgrees, Effect, Next, Apply;
    EveryRun(s);
    if step.Writer? {
      if s.sessions[step.j].key == key && step.work == Rename(true) {
        RenamedRow(s, step.j);
      } else if s.sessions[step.j].key == key && step.work == Work.Record(true) {
        RecordMakesAgree(s, step.j) by { AtRecording(s.sessions[step.j]); }
      } else {
        WriterKeepsAgreement(s, step.j, step.work, key);
      }
    } else {
      OthersKeepAgreement(s, step, key);
    }
  }

  lemma AtRecording(x: Download)
    requires CanWork(x, Work.Record(true))
    ensures x.pc.Recording?
  {}

  lemma RenamedRow(s: State, j: nat)
    requires Core(s) && j < |s.sessions| && CanWork(s.sessions[j], Rename(true))
    ensures RowAgrees(Apply(s, Writer(j, Rename(true))), s.sessions[j].key)
       <==> (s.sessions[j].key in s.rows ==> |s.sessions[j].received| == s.rows[s.sessions[j].key])
  {
    OkSession(s, j);
    HolderHeld(s, j);
  }

  // ---- Runs ----

  lemma RenameTraces(s: State, j: nat)
    requires Inv(s) && History(s) && j < |s.sessions| && s.sessions[j].pc.Renaming?
    ensures LastUnrecorded(Apply(s, Writer(j, Rename(true))), s.sessions[j].key)
  {
    hide Inv, History, PromotedLater;
    var t := Apply(s, Writer(j, Rename(true)));
    StepKeepsHistory(s, Writer(j, Rename(true))) by { assert Core(s) by { CoreOf(s); } }
    IsTraced(t, j);
    NoneLater(t.sessions, j);
    OkSession(s, j) by { CoreOf(s); }
    assert t.sessions[j].key == s.sessions[j].key && Unrecorded(t.sessions[j]);
  }

  lemma CoreOf(s: State)
    requires Inv(s)
    ensures Core(s)
  {}

  lemma WriterTraces(s: State, j: nat, w: Work, key: Key)
    requires Inv(s) && History(s) && j < |s.sessions| && CanWork(s.sessions[j], w) && LastUnrecorded(s, key)
    ensures RowTraced(Apply(s, Writer(j, w)), key)
  {
    hide Inv, History, PromotedLater, RowAgrees, Effect, Next, Unrecorded;
    CoreOf(s);
    var k :| 0 <= k < |s.sessions| && s.sessions[k].key == key && Unrecorded(s.sessions[k]) && !PromotedLater(s.sessions, k);
    var x, y, t := s.sessions[j], Next(s, s.sessions[j], w), Apply(s, Writer(j, w));
    OkSession(s, j);
    if x.key == key && w == Rename(true) {
      AtRenaming(x);
      RenameTraces(s, j);
    } else if x.key == key && w == Work.Record(true) {
      AtRecording(x);
      RecordMakesAgree(s, j);
    } else {
      NextKey(s, x, w);
      if k == j {
        UnrecordedStays(s, x, w);
      }
      PromotedLaterElsewhere(s.sessions, j, y, k);
      assert t.sessions[k].key == key && Unrecorded(t.sessions[k]);
    }
  }

  lemma AtRenaming(x: Download)
    requires CanWork(x, Rename(true))
    ensures x.pc.Renaming?
  {}

  lemma NextKey(s: State, x: Download, w: Work)
    requires CanWork(x, w) && FateOk(x)
    ensures Next(s, x, w).key == x.key
    ensures w != Rename(true) ==> (Next(s, x, w).fate == Promoted <==> x.fate == Promoted)
  {}

  lemma PromotedLaterElsewhere(xs: seq<Download>, j: nat, y: Download, k: nat)
    requires j < |xs| && k < |xs| && y.key == xs[j].key && !PromotedLater(xs, k)
    requires (y.fate == Promoted <==> xs[j].fate == Promoted) || y.key != xs[k].key
    ensures !PromotedLater(xs[j := y], k)
  {}

  lemma OthersTrace(s: State, step: Step, key: Key)
    requires Enabled(s, step) && !step.Crash? && !step.Writer? && LastUnrecorded(s, key)
    ensures LastUnrecorded(Apply(s, step), key)
  {
    hide Answer, Unrecorded, PromotedLater;
    var t := Apply(s, step);
    var k :| 0 <= k < |s.sessions| && s.sessions[k].key == key && Unrecorded(s.sessions[k]) && !PromotedLater(s.sessions, k);
    if t.sessions != s.sessions {
      assert t.sessions == s.sessions + [t.sessions[|s.sessions|]];
      LaterWithNew(s.sessions, t.sessions[|s.sessions|], k);
    }
    assert t.sessions[k].key == key && Unrecorded(t.sessions[k]);
  }

  lemma RowStep(s: State, step: Step, key: Key)
    requires Inv(s) && History(s) && Enabled(s, step) && !step.Crash? && RowTraced(s, key)
    ensures RowTraced(Apply(s, step), key)
  {
    hide Inv, History, LastUnrecorded, RowAgrees, Effect, Next, Apply;
    CoreOf(s);
    if LastUnrecorded(s, key) {
      if step.Writer? {
        WriterTraces(s, step.j, step.work, key);
      } else {
        OthersTrace(s, step, key);
      }
    } else if step.Writer? {
      if s.sessions[step.j].key == key && step.work == Rename(true) {
        AtRenaming(s.sessions[step.j]);
        RenameTraces(s, step.j);
      } else if s.sessions[step.j].key == key && step.work == Work.Record(true) {
        AtRecording(s.sessions[step.j]);
        RecordMakesAgree(s, step.j);
      } else {
        WriterKeepsAgreement(s, step.j, step.work, key);
      }
    } else {
      OthersKeepAgreement(s, step, key);
    }
  }

  /** Along any steps without the end of the process, a row that disagrees with the artifact means that
      the session the artifact is from has not recorded it, or failed to. */
  lemma {:induction false} RowsAgreeUnlessUnrecorded(s: State, steps: seq<Step>, key: Key)
    requires Inv(s) && History(s) && RowTraced(s, key) && IsRun(s, steps) && CrashFree(steps)
    ensures RowTraced(After(s, steps), key)
    decreases |steps|
  {
    hide Inv, History, RowTraced, Enabled, Apply;
    if steps != [] {
      RowStep(s, steps[0], key);
      StepKeeps(s, steps[0]);
      StepKeepsHistory(s, steps[0]) by { CoreOf(s); }
      RowsAgreeUnlessUnrecorded(Apply(s, steps[0]), steps[1..], key);
    }
  }

  /** In particular from the very start. */
  lemma RowsOfAFirstProcess(steps: seq<Step>, key: Key)
    requires IsRun(EMPTY, steps) && CrashFree(steps)
    ensures RowAgrees(After(EMPTY, steps), key) || LastUnrecorded(After(EMPTY, steps), key)
  {
    hide IsRun, After, LastUnrecorded;
    EmptyOk();
    IsHistory(EMPTY);
    RowsAgreeUnlessUnrecorded(EMPTY, steps, key);
  }
}
