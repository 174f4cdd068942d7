/** The state of SessionRuns told by what has happened: where each request is, who is asleep, and what the
    session has been told, as a matter of the steps so far. */
module SessionHistory {
  import opened SessionMonitor
  import opened SessionRuns

  function Init(steps: seq<Step>): seq<Step>
    requires steps != []
  {
    steps[..|steps| - 1]
  }

  function Last(steps: seq<Step>): Step
    requires steps != []
  {
    steps[|steps| - 1]
  }

  // ---- What has happened to a request ----

  /** Whether the request is inside serveSession, or the streaming loop, by the last time it passed there. */
  function PhaseOf(steps: seq<Step>, r: nat): Phase {
    if steps == [] then Away else
      var step, before := Last(steps), PhaseOf(Init(steps), r);
      match step
      case Enter(q) => if q == r then Inside else before
      case Stream(q, _) => if q == r then Phase.Streaming else before
      case Return(q) => if q == r then Inside else before
      case Leave(q, _) => if q == r then Phase.Left else before
      case _ => before
  }

  /** Where it started to stream, and what it has advanced since. */
  function OffsetOf(steps: seq<Step>, r: nat): nat {
    if steps == [] then 0 else
      var before := OffsetOf(Init(steps), r);
      match Last(steps)
      case Stream(q, start) => if q == r then start else before
      case Advance(q, n) => if q == r then before + n else before
      case _ => before
  }

  /** Its context has ended and its waker has neither broadcast nor been stopped: the waker is started with the
      loop, and looks at the context from then on. */
  function WakerDue(steps: seq<Step>, r: nat): bool {
    if steps == [] then false else
      var before := WakerDue(Init(steps), r);
      match Last(steps)
      case Stream(q, _) => if q == r then End(r) in Init(steps) else before
      case End(q) => before || (q == r && PhaseOf(Init(steps), r) == Phase.Streaming)
      case Wake(q) => before && q != r
      case Unwake(q) => before && q != r
      case _ => before
  }

  /** It went to sleep, and nobody has broadcast since: neither the writer nor any waker. */
  function AsleepOf(steps: seq<Step>, r: nat): bool {
    if steps == [] then false else
      var before := AsleepOf(Init(steps), r);
      match Last(steps)
      case Sleep(q) => before || q == r
      case Announce(_) => false
      case Cached(_, _, _) => false
      case Finish(_) => false
      case Wake(_) => false
      case _ => before
  }

  // ---- What has happened to the session ----

  predicate Announced(step: Step) { step.Headers? || step.Cached? || step.Finish? }

  /** The length announced last, the path set last, and the bytes announced since it was set. */
  function TotalOf(steps: seq<Step>): int {
    if steps == [] then -1 else
      match Last(steps)
      case Headers(total, _) => total
      case Cached(_, size, _) => size
      case _ => TotalOf(Init(steps))
  }

  function PathOf(steps: seq<Step>): FilePath {
    if steps == [] then PartFile else
      match Last(steps)
      case Cached(path, _, _) => path
      case Moved(path) => path
      case _ => PathOf(Init(steps))
  }

  function AvailableOf(steps: seq<Step>): nat {
    if steps == [] then 0 else
      match Last(steps)
      case Cached(_, size, _) => size
      case Announce(n) => AvailableOf(Init(steps)) + n
      case _ => AvailableOf(Init(steps))
  }

  // ---- That is the state ----

  lemma {:induction false} RunPrefix(s: State, steps: seq<Step>)
    requires IsRun(s, steps) && steps != []
    ensures IsRun(s, Init(steps)) && Enabled(After(s, Init(steps)), Last(steps))
    ensures After(s, steps) == Apply(After(s, Init(steps)), Last(steps))
    decreases |steps|
  {
    hide Enabled, Apply;
    if |steps| == 1 {
      assert steps[1..] == [];
    } else {
      RunPrefix(Apply(s, steps[0]), steps[1..]);
      assert Init(steps)[1..] == Init(steps[1..]) && Last(steps[1..]) == Last(steps);
    }
  }

  ghost predicate RequestAsTold(s: State, steps: seq<Step>, r: nat) {
    r < |s.requests| ==>
      && s.requests[r].phase == PhaseOf(steps, r) && s.requests[r].offset == OffsetOf(steps, r)
      && (s.requests[r].ended <==> End(r) in steps) && (s.requests[r].wakePending <==> WakerDue(steps, r))
  }

  /** Nothing has happened to a request that has not arrived. */
  ghost predicate NotYet(steps: seq<Step>, r: nat) {
    PhaseOf(steps, r) == Away && OffsetOf(steps, r) == 0 && End(r) !in steps && !WakerDue(steps, r)
  }

  lemma InLast(steps: seq<Step>, step: Step)
    requires steps != []
    ensures step in steps <==> step in Init(steps) || step == Last(steps)
  {
    assert steps == Init(steps) + [Last(steps)];
  }

  lemma OneMore(s: State, steps: seq<Step>, r: nat)
    requires steps != [] && Enabled(s, Last(steps)) && (r >= |s.requests| ==> NotYet(Init(steps), r))
    requires RequestAsTold(s, Init(steps), r)
    ensures RequestAsTold(Apply(s, Last(steps)), steps, r)
    ensures r >= |Apply(s, Last(steps)).requests| ==> NotYet(steps, r)
  {
    InLast(steps, End(r));
  }

  /** Over every run, where a request is, how far it has read, whether its context has ended and whether its
      waker is due are as its history tells. */
  lemma {:induction false} RequestsAreAsTold(steps: seq<Step>, r: nat)
    requires IsRun(START, steps)
    ensures RequestAsTold(After(START, steps), steps, r)
    ensures r >= |After(START, steps).requests| ==> NotYet(steps, r)
    decreases |steps|
  {
    hide Apply, Enabled, RequestAsTold, NotYet;
    if steps == [] {
      ToldNothing(r);
    } else {
      RunPrefix(START, steps);
      RequestsAreAsTold(Init(steps), r);
      OneMore(After(START, Init(steps)), steps, r);
    }
  }

  lemma ToldNothing(r: nat)
    ensures RequestAsTold(START, [], r) && NotYet([], r)
  {}

  ghost predicate SessionAsTold(m: Monitor, steps: seq<Step>) {
    && m.total == TotalOf(steps) && m.filePath == PathOf(steps) && m.available == AvailableOf(steps)
    && (m.ready <==> exists step :: step in steps && Announced(step))
    && (m.complete <==> exists f :: Finish(f) in steps) && (m.failed <==> Finish(true) in steps)
    && (m.background <==> Keep in steps)
    && (forall r :: r in m.waiting <==> AsleepOf(steps, r))
  }

  lemma FieldsOneMore(s: State, steps: seq<Step>)
    requires steps != [] && Enabled(s, Last(steps)) && SessionAsTold(s.m, Init(steps))
    ensures var m := Apply(s, Last(steps)).m;
      m.total == TotalOf(steps) && m.filePath == PathOf(steps) && m.available == AvailableOf(steps)
  {
    hide Apply, SessionAsTold, Enabled;
    FieldsNext(s, Last(steps));
    assert s.m.total == TotalOf(Init(steps)) && s.m.filePath == PathOf(Init(steps)) && s.m.available == AvailableOf(Init(steps)) by {
      FieldsTold(s.m, Init(steps));
    }
  }

  lemma FieldsTold(m: Monitor, steps: seq<Step>)
    requires SessionAsTold(m, steps)
    ensures m.total == TotalOf(steps) && m.filePath == PathOf(steps) && m.available == AvailableOf(steps)
  {}

  lemma FieldsNext(s: State, step: Step)
    requires Enabled(s, step)
    ensures var m := Apply(s, step).m;
      && m.total == (if step.Headers? then step.total else if step.Cached? then step.size else s.m.total)
      && m.filePath == (if step.Cached? || step.Moved? then step.path else s.m.filePath)
      && m.available == (if step.Cached? then step.size else if step.Announce? then s.m.available + step.n else s.m.available)
  {
    hide Enabled;
  }

  lemma SleepersOneMore(s: State, steps: seq<Step>, r: nat)
    requires steps != [] && Enabled(s, Last(steps)) && SessionAsTold(s.m, Init(steps))
    ensures r in Apply(s, Last(steps)).m.waiting <==> AsleepOf(steps, r)
  {
    assert r in s.m.waiting <==> AsleepOf(Init(steps), r);
  }

  lemma FlagsNext(s: State, step: Step)
    requires Enabled(s, step) && (s.m.failed ==> s.m.complete)
    ensures var m := Apply(s, step).m;
      && (m.ready <==> s.m.ready || Announced(step)) && (m.complete <==> s.m.complete || step.Finish?)
      && (m.failed <==> s.m.failed || step == Finish(true)) && (m.background <==> s.m.background || step == Keep)
  {
    if step.Finish? || step.Headers? || step.Cached? || step.Keep? {
    } else {
      FlagsStay(s, step);
    }
  }

  lemma FlagsStay(s: State, step: Step)
    requires Enabled(s, step) && !step.Finish? && !step.Headers? && !step.Cached? && !step.Keep?
    ensures var m := Apply(s, step).m;
      m.ready == s.m.ready && m.complete == s.m.complete && m.failed == s.m.failed && m.background == s.m.background
  {
    if Quiet(step) {
      hide Apply, Enabled;
      QuietMonitor(s, step);
    }
  }

  /** Steps of a request that leave the session alone. */
  predicate Quiet(step: Step) { step.Arrive? || step.Stream? || step.Advance? || step.Return? || step.End? || step.Unwake? }

  lemma QuietMonitor(s: State, step: Step)
    requires Enabled(s, step) && Quiet(step)
    ensures Apply(s, step).m == s.m
  {}

  lemma EventsOneMore(steps: seq<Step>)
    requires steps != []
    ensures (exists x :: x in steps && Announced(x)) <==> (exists x :: x in Init(steps) && Announced(x)) || Announced(Last(steps))
    ensures (exists f :: Finish(f) in steps) <==> (exists f :: Finish(f) in Init(steps)) || Last(steps).Finish?
    ensures Finish(true) in steps <==> Finish(true) in Init(steps) || Last(steps) == Finish(true)
    ensures Keep in steps <==> Keep in Init(steps) || Last(steps) == Keep
  {
    forall x ensures x in steps <==> x in Init(steps) || x == Last(steps) {
      InLast(steps, x);
    }
    assert Last(steps) in steps;
    if Last(steps).Finish? {
      assert Finish(Last(steps).failed) in steps;
    }
  }

  lemma SessionOneMore(s: State, steps: seq<Step>)
    requires steps != [] && Enabled(s, Last(steps)) && SessionAsTold(s.m, Init(steps))
    requires s.m.failed ==> s.m.complete
    ensures SessionAsTold(Apply(s, Last(steps)).m, steps)
  {
    hide Apply, TotalOf, PathOf, AvailableOf, AsleepOf, Announced;
    FieldsOneMore(s, steps);
    FlagsNext(s, Last(steps));
    EventsOneMore(steps);
    forall r ensures r in Apply(s, Last(steps)).m.waiting <==> AsleepOf(steps, r) {
      SleepersOneMore(s, steps, r);
    }
  }

  /** Over every run, the session is as told: length, path and bytes by the last announcement, ready once anything
      was announced, complete and failed as it was finished, kept alive once it was; and asleep is exactly who
      went to sleep with no broadcast since. */
  lemma {:induction false} SessionIsAsTold(steps: seq<Step>)
    requires IsRun(START, steps)
    ensures SessionAsTold(After(START, steps).m, steps)
    decreases |steps|
  {
    hide Apply, Enabled, SessionAsTold, Inv;
    if steps == [] {
      SessionToldNothing();
    } else {
      RunPrefix(START, steps);
      SessionIsAsTold(Init(steps));
      var s := After(START, Init(steps));
      assert s.m.failed ==> s.m.complete by { StartOk(); RunKeeps(START, Init(steps)); FailedIsComplete(s); }
      SessionOneMore(s, steps);
    }
  }

  lemma StartOk()
    ensures Inv(START)
  {}

  lemma FailedIsComplete(s: State)
    requires Inv(s)
    ensures s.m.failed ==> s.m.complete
  {}

  lemma SessionToldNothing()
    ensures SessionAsTold(START.m, [])
  {}

  /** A sleeper has nothing to read, in an unfinished session, and if its context has ended its waker is due and
      will wake it. */
  lemma SleepersAreRight(steps: seq<Step>, r: nat)
    requires IsRun(START, steps) && r in After(START, steps).m.waiting
    ensures var s := After(START, steps);
      && r < |s.requests| && s.requests[r].phase == Phase.Streaming
      && s.requests[r].offset >= s.m.available && !s.m.complete && !s.m.failed
      && (s.requests[r].ended ==> Enabled(s, Wake(r)) && r !in Apply(s, Wake(r)).m.waiting)
  {
    RunKeeps(START, steps);
    assert SleeperOk(After(START, steps), r);
  }

  // ---- The idle timer ----

  /** The idle timer runs exactly from the moment the last request leaves an unfinished session that is not kept
      alive, if there is a time to live; it is forgotten when a request enters, on keep-alive and at the end, and
      no timer is ever left running. */
  lemma TimerIff(s: State, step: Step)
    requires Inv(s) && Enabled(s, step)
    ensures var t := Apply(s, step);
      && (t.m.timer == Running <==>
            (step.Leave? && Served(t.requests) == 0 && !s.m.complete && !s.m.background && step.ttl > 0)
            || (s.m.timer == Running && !step.Enter? && !step.Keep? && !step.Finish? && !step.Fire?))
      && (t.m.timer == Fired <==> step.Fire? || (s.m.timer == Fired && !step.Enter? && !step.Keep? && !step.Finish? && !step.Leave?))
      && (step.Leave? ==> s.m.timer == NoTimer) && t.m.stray == 0
  {
    if step.Leave? {
      LeavesServed(s, step.r, step.ttl);
    }
  }

  lemma LeavesServed(s: State, r: nat, ttl: int)
    requires Inv(s) && Enabled(s, Leave(r, ttl))
    ensures Served(Apply(s, Leave(r, ttl)).requests) == s.m.readers - 1 >= 0 && s.m.timer == NoTimer
  {
    ServedSet(s.requests, r, s.requests[r].(phase := Phase.Left));
    ServedNobody(s.requests, r);
  }

  function Fires(steps: seq<Step>): nat {
    if steps == [] then 0 else Fires(Init(steps)) + if Last(steps).Fire? then 1 else 0
  }

  function Callbacks(steps: seq<Step>): nat {
    if steps == [] then 0 else Callbacks(Init(steps)) + if Last(steps).Callback? then 1 else 0
  }

  /** Over every run, the callbacks that wait for the lock are the timers fired and not yet called back; and the
      session is cancelled exactly when one of them found nobody inside and the session unfinished. */
  lemma {:induction false} CallbacksAreFires(steps: seq<Step>)
    requires IsRun(START, steps)
    ensures After(START, steps).m.callbacks + Callbacks(steps) == Fires(steps)
    ensures After(START, steps).m.cancelled <==> exists k :: 0 <= k < |steps| && Cancels(steps, k)
    decreases |steps|
  {
    hide Apply, Enabled;
    if steps != [] {
      RunPrefix(START, steps);
      CallbacksAreFires(Init(steps));
      CallbackNext(After(START, Init(steps)), Last(steps));
      CancelsNext(steps);
    } else {
      StartOk();
    }
  }

  /** The k-th step is a callback that cancels. */
  ghost predicate Cancels(steps: seq<Step>, k: nat)
    requires IsRun(START, steps) && k < |steps|
  {
    steps[k].Callback? && IsRun(START, steps[..k])
    && After(START, steps[..k]).m.readers == 0 && !After(START, steps[..k]).m.complete
  }

  lemma CallbackNext(s: State, step: Step)
    requires Enabled(s, step)
    ensures var m := Apply(s, step).m;
      && m.callbacks == s.m.callbacks + (if step.Fire? then 1 else 0) - (if step.Callback? then 1 else 0)
      && (m.cancelled <==> s.m.cancelled || (step.Callback? && s.m.readers == 0 && !s.m.complete))
  {
    if Quiet(step) {
      hide Apply, Enabled;
      QuietMonitor(s, step);
    } else if !step.Fire? && !step.Callback? {
      CallbacksStay(s, step);
    }
  }

  lemma CallbacksStay(s: State, step: Step)
    requires Enabled(s, step) && !Quiet(step) && !step.Fire? && !step.Callback?
    ensures Apply(s, step).m.callbacks == s.m.callbacks && Apply(s, step).m.cancelled == s.m.cancelled
  {
    if step.Enter? || step.Leave? || step.Wake? || step.Sleep? {
      hide Apply, Enabled;
      ReadersCallbacksStay(s, step);
    }
  }

  lemma ReadersCallbacksStay(s: State, step: Step)
    requires Enabled(s, step) && (step.Enter? || step.Leave? || step.Wake? || step.Sleep?)
    ensures Apply(s, step).m.callbacks == s.m.callbacks && Apply(s, step).m.cancelled == s.m.cancelled
  {}

  lemma CancelsNext(steps: seq<Step>)
    requires IsRun(START, steps) && steps != [] && IsRun(START, Init(steps))
    ensures (exists k :: 0 <= k < |steps| && Cancels(steps, k)) <==>
              (exists k :: 0 <= k < |Init(steps)| && Cancels(Init(steps), k)) || Cancels(steps, |steps| - 1)
  {
    hide IsRun, After;
    forall k | 0 <= k < |Init(steps)| ensures Cancels(steps, k) <==> Cancels(Init(steps), k) {
      assert Init(steps)[..k] == steps[..k];
    }
  }

  // ---- Every step can be taken ----

  ghost predicate Leads(steps: seq<Step>, s: State) { IsRun(START, steps) && After(START, steps) == s }

  lemma On(s: State, steps: seq<Step>, step: Step) returns (t: State, more: seq<Step>)
    requires Leads(steps, s) && Enabled(s, step)
    ensures more == steps + [step] && Leads(more, t) && t == Apply(s, step)
  {
    hide Enabled, Apply;
    more := steps + [step];
    t := Apply(s, step);
    assert [step][1..] == [] && IsRun(t, [step][1..]);
    assert IsRun(s, [step]) && After(s, [step]) == t;
    RunsCompose(START, steps, [step]);
  }

  const COMES: seq<Step> := [Arrive, Enter(0), Stream(0, 0), Sleep(0)]
  const READS: seq<Step> := [Headers(2, ""), Announce(1), Advance(0, 1), Sleep(0)]
  const WAKES: seq<Step> := [End(0), Wake(0), Return(0)]
  const PASSES: seq<Step> := [Arrive, Enter(1), Stream(1, 0), End(1), Return(1), Unwake(1), Leave(1, 1)]
  const IDLES: seq<Step> := [Leave(0, 1), Fire, Callback]
  const ENDS: seq<Step> := [Keep, Announce(1), Moved(ArtifactFile), Finish(false)]

  lemma Comes() returns (s: State)
    ensures Leads(COMES, s)
    ensures s == State(FRESH.(readers := 1, waiting := {0}), [Request(Phase.Streaming, 0, false, false)])
  {
    hide Leads;
    assert Leads([], START) by { Nothing(); }
    var steps: seq<Step>;
    s, steps := On(START, [], Arrive);
    s, steps := On(s, steps, Enter(0));
    s, steps := On(s, steps, Stream(0, 0));
    s, steps := On(s, steps, Sleep(0));
    assert steps == COMES;
  }

  lemma Nothing()
    ensures Leads([], START)
  {}

  lemma Reads() returns (s: State)
    ensures Leads(COMES + READS, s)
    ensures s == State(FRESH.(readers := 1, waiting := {0}, total := 2, ready := true, available := 1),
                       [Request(Phase.Streaming, 1, false, false)])
  {
    hide Leads;
    s := Comes();
    var steps := COMES;
    s, steps := On(s, steps, Headers(2, ""));
    s, steps := On(s, steps, Announce(1));
    s, steps := On(s, steps, Advance(0, 1));
    s, steps := On(s, steps, Sleep(0));
    assert steps == COMES + READS;
  }

  lemma Wakes() returns (s: State)
    ensures Leads(COMES + READS + WAKES, s)
    ensures s == State(FRESH.(readers := 1, total := 2, ready := true, available := 1), [Request(Inside, 1, true, false)])
  {
    hide Leads;
    s := Reads();
    var steps := COMES + READS;
    s, steps := On(s, steps, End(0));
    s, steps := On(s, steps, Wake(0));
    s, steps := On(s, steps, Return(0));
    assert steps == COMES + READS + WAKES;
  }

  lemma Passes() returns (s: State)
    ensures Leads(COMES + READS + WAKES + PASSES, s)
    ensures s == State(FRESH.(readers := 1, total := 2, ready := true, available := 1),
                       [Request(Inside, 1, true, false), Request(Phase.Left, 0, true, false)])
  {
    hide Leads;
    s := Wakes();
    var steps := COMES + READS + WAKES;
    s, steps := On(s, steps, Arrive);
    s, steps := On(s, steps, Enter(1));
    s, steps := On(s, steps, Stream(1, 0));
    s, steps := On(s, steps, End(1));
    s, steps := On(s, steps, Return(1));
    s, steps := On(s, steps, Unwake(1));
    s, steps := On(s, steps, Leave(1, 1));
    assert steps == COMES + READS + WAKES + PASSES;
  }

  lemma Idles() returns (s: State)
    ensures Leads(COMES + READS + WAKES + PASSES + IDLES, s)
    ensures s.m == FRESH.(total := 2, ready := true, available := 1, timer := Fired, cancelled := true)
  {
    hide Leads;
    s := Passes();
    var steps := COMES + READS + WAKES + PASSES;
    s, steps := On(s, steps, Leave(0, 1));
    s, steps := On(s, steps, Fire);
    s, steps := On(s, steps, Callback);
    assert steps == COMES + READS + WAKES + PASSES + IDLES;
  }

  /** One life of a session: a request sleeps until the first bytes are announced, reads them, and sleeps again until
      its context ends and its waker wakes it; another one leaves before its waker gets the lock; both gone, the
      idle timer fires and cancels; and the writer ends all the same. */
  lemma WholeLife() returns (s: State)
    ensures Leads(COMES + READS + WAKES + PASSES + IDLES + ENDS, s)
    ensures s.m.cancelled && s.m.complete && !s.m.failed && s.m.readers == 0 && s.m.waiting == {} && s.m.timer == NoTimer
  {
    hide Leads;
    s := Idles();
    var steps := COMES + READS + WAKES + PASSES + IDLES;
    s, steps := On(s, steps, Keep);
    s, steps := On(s, steps, Announce(1));
    s, steps := On(s, steps, Moved(ArtifactFile));
    s, steps := On(s, steps, Finish(false));
    assert steps == COMES + READS + WAKES + PASSES + IDLES + ENDS;
  }

  /** Another one answers from the cached object. */
  lemma WholeReuse() returns (s: State)
    ensures Leads([Keep, Cached(ArtifactFile, 3, ""), Finish(false)], s)
    ensures s.m.available == s.m.total == 3 && s.m.complete && !s.m.failed
  {
    hide Leads;
    assert Leads([], START) by { Nothing(); }
    var steps: seq<Step>;
    s, steps := On(START, [], Keep);
    s, steps := On(s, steps, Cached(ArtifactFile, 3, ""));
    s, steps := On(s, steps, Finish(false));
    assert steps == [Keep, Cached(ArtifactFile, 3, ""), Finish(false)];
  }
}
