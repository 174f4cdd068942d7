/** Every interleaving of one session's critical sections: the writer's announcements, the requests
    inside serveSession, the wakers of their contexts, keep-alive, and the idle timer. */
module SessionRuns {
  import opened SessionMonitor

  /** A request before, inside and after serveSession; Streaming is inside streamGrowingFile. */
  datatype Phase = Away | Inside | Streaming | Left

  /** `wakePending`: the request's context has ended and its waker has not broadcast yet. */
  datatype Request = Request(phase: Phase, offset: nat, ended: bool, wakePending: bool) {
    predicate Served() { phase == Inside || phase == Streaming }
  }

  datatype State = State(m: Monitor, requests: seq<Request>)

  datatype Step =
    | Arrive                       // a request finds the session
    | Enter(r: nat)                // addReader
    | Stream(r: nat, start: nat)   // streamGrowingFile starts, and its waker with it
    | Sleep(r: nat)                // the wait loop finds nothing and the context live
    | Advance(r: nat, n: nat)      // bytes up to a snapshot of `available` are sent
    | Return(r: nat)               // streamGrowingFile returns, for whatever reason
    | Leave(r: nat, ttl: int)      // removeReader
    | End(r: nat)                  // the request's context ends
    | Wake(r: nat)                 // its waker broadcasts
    | Unwake(r: nat)               // its waker sees the stop channel instead
    | Headers(total: int, contentType: string)
    | Cached(path: FilePath, size: nat, contentType: string)
    | Moved(path: FilePath)
    | Announce(n: nat)
    | Finish(failed: bool)
    | Keep                         // keepAlive
    | Fire                         // the idle timer fires
    | Callback                     // a fired callback gets the lock

  /** What the wait loop of streamGrowingFile waits on. */
  predicate NothingToRead(m: Monitor, q: Request) { q.offset >= m.available && !m.complete && !m.failed }

  predicate Awake(s: State, r: nat) { r < |s.requests| && s.requests[r].phase == Streaming && r !in s.m.waiting }

  predicate Enabled(s: State, step: Step) {
    match step
    case Arrive => true
    case Enter(r) => r < |s.requests| && s.requests[r].phase == Away
    case Stream(r, _) => r < |s.requests| && s.requests[r].phase == Inside
    case Sleep(r) => Awake(s, r) && NothingToRead(s.m, s.requests[r]) && !s.requests[r].ended
    case Advance(r, n) => Awake(s, r) && s.requests[r].offset + n <= s.m.available
    case Return(r) => Awake(s, r)
    case Leave(r, _) => r < |s.requests| && s.requests[r].phase == Inside
    case End(r) => r < |s.requests| && !s.requests[r].ended
    case Wake(r) => r < |s.requests| && s.requests[r].wakePending
    case Unwake(r) => r < |s.requests| && s.requests[r].wakePending && s.requests[r].phase != Streaming
    case Headers(_, _) => !s.m.complete
    case Cached(_, _, _) => !s.m.complete
    case Moved(_) => !s.m.complete
    case Announce(_) => !s.m.complete
    case Finish(_) => !s.m.complete
    case Keep => true
    case Fire => s.m.timer == Running
    case Callback => s.m.callbacks > 0
  }

  function Set(s: State, r: nat, q: Request): State
    requires r < |s.requests|
  {
    s.(requests := s.requests[r := q])
  }

  function Apply(s: State, step: Step): State
    requires Enabled(s, step)
  {
    match step
    case Arrive => s.(requests := s.requests + [Request(Away, 0, false, false)])
    case Enter(r) => Set(s, r, s.requests[r].(phase := Inside)).(m := s.m.AddReader())
    case Stream(r, start) =>
      Set(s, r, s.requests[r].(phase := Streaming, offset := start, wakePending := s.requests[r].ended))
    case Sleep(r) => s.(m := s.m.Wait(r))
    case Advance(r, n) => Set(s, r, s.requests[r].(offset := s.requests[r].offset + n))
    case Return(r) => Set(s, r, s.requests[r].(phase := Inside))
    case Leave(r, ttl) => Set(s, r, s.requests[r].(phase := Left)).(m := s.m.RemoveReader(ttl))
    case End(r) =>
      Set(s, r, s.requests[r].(ended := true, wakePending := s.requests[r].wakePending || s.requests[r].phase == Streaming))
    case Wake(r) => Set(s, r, s.requests[r].(wakePending := false)).(m := s.m.Broadcast())
    case Unwake(r) => Set(s, r, s.requests[r].(wakePending := false))
    case Headers(total, contentType) => s.(m := s.m.SetHeaders(total, contentType))
    case Cached(path, size, contentType) => s.(m := s.m.SetCachedFile(path, size, contentType))
    case Moved(path) => s.(m := s.m.SetFilePath(path))
    case Announce(n) => s.(m := s.m.AddAvailable(n))
    case Finish(failed) => s.(m := s.m.Finish(failed))
    case Keep => s.(m := s.m.KeepAlive())
    case Fire => s.(m := s.m.Fire())
    case Callback => s.(m := s.m.Callback())
  }

  const START := State(FRESH, [])

  // ---- What every step keeps ----

  function Served(requests: seq<Request>): (n: nat) {
    if requests == [] then 0
    else Served(requests[..|requests| - 1]) + if requests[|requests| - 1].Served() then 1 else 0
  }

  lemma {:induction false} ServedSet(requests: seq<Request>, r: nat, q: Request)
    requires r < |requests|
    ensures Served(requests[r := q])
         == Served(requests) - (if requests[r].Served() then 1 else 0) + (if q.Served() then 1 else 0)
  {
    var last := |requests| - 1;
    if r == last {
      assert requests[r := q][..last] == requests[..last];
    } else {
      assert requests[r := q][..last] == requests[..last][r := q];
      ServedSet(requests[..last], r, q);
    }
  }

  lemma {:induction false} ServedNobody(requests: seq<Request>, r: nat)
    requires r < |requests| && requests[r].Served()
    ensures Served(requests) > 0
  {
    if r < |requests| - 1 {
      ServedNobody(requests[..|requests| - 1], r);
    }
  }

  /** A sleeper has nothing to read in an unfinished session, and if its context has ended then the
      broadcast that wakes it is still to come. */
  ghost predicate SleeperOk(s: State, r: nat) {
    && r < |s.requests|
    && s.requests[r].phase == Streaming
    && NothingToRead(s.m, s.requests[r])
    && (s.requests[r].ended ==> s.requests[r].wakePending)
  }

  /** A request that is streaming with its context ended either has its waker pending or has been
      broadcast to since; asleep, the waker is pending. */
  ghost predicate Inv(s: State) {
    && s.m.readers == Served(s.requests)
    && (s.m.timer != NoTimer ==> s.m.readers == 0 && !s.m.complete && !s.m.background)
    && s.m.stray == 0
    && (s.m.failed ==> s.m.complete)
    && (s.m.complete ==> s.m.ready && s.m.done)
    && (forall r :: r in s.m.waiting ==> SleeperOk(s, r))
  }

  lemma RequestStepKeeps(s: State, step: Step)
    requires Inv(s) && Enabled(s, step)
    requires step.Stream? || step.Advance? || step.Return? || step.End? || step.Unwake? || step.Sleep?
    ensures Inv(Apply(s, step))
  {
    var s' := Apply(s, step);
    if !step.Sleep? {
      ServedSet(s.requests, step.r, s'.requests[step.r]);
    }
    forall r | r in s'.m.waiting
      ensures SleeperOk(s', r)
    {
      assert r in s.m.waiting ==> SleeperOk(s, r);
    }
  }

  lemma ReaderStepKeeps(s: State, step: Step)
    requires Inv(s) && Enabled(s, step)
    requires step.Arrive? || step.Enter? || step.Leave? || step.Wake?
    ensures Inv(Apply(s, step))
  {
    var s' := Apply(s, step);
    if step.Arrive? {
      assert s'.requests[..|s.requests|] == s.requests;
    } else {
      ServedSet(s.requests, step.r, s'.requests[step.r]);
      if step.Leave? {
        ServedNobody(s.requests, step.r);
      }
    }
    forall r | r in s'.m.waiting
      ensures SleeperOk(s', r)
    {
      assert SleeperOk(s, r);
    }
  }

  lemma MonitorStepKeeps(s: State, step: Step)
    requires Inv(s) && Enabled(s, step)
    requires step.Headers? || step.Cached? || step.Moved? || step.Announce? || step.Finish? || step.Keep? || step.Fire? || step.Callback?
    ensures Inv(Apply(s, step))
  {
    var s' := Apply(s, step);
    forall r | r in s'.m.waiting
      ensures SleeperOk(s', r)
    {
      assert SleeperOk(s, r);
    }
  }

  lemma StepKeeps(s: State, step: Step)
    requires Inv(s) && Enabled(s, step)
    ensures Inv(Apply(s, step))
  {
    hide Inv, Apply;
    match step {
      case Arrive => ReaderStepKeeps(s, step);
      case Enter(_) => ReaderStepKeeps(s, step);
      case Leave(_, _) => ReaderStepKeeps(s, step);
      case Wake(_) => ReaderStepKeeps(s, step);
      case Stream(_, _) => RequestStepKeeps(s, step);
      case Sleep(_) => RequestStepKeeps(s, step);
      case Advance(_, _) => RequestStepKeeps(s, step);
      case Return(_) => RequestStepKeeps(s, step);
      case End(_) => RequestStepKeeps(s, step);
      case Unwake(_) => RequestStepKeeps(s, step);
      case _ => MonitorStepKeeps(s, step);
    }
  }

  // ---- Runs ----

  /** A run: each step enabled where it is taken. */
  ghost predicate IsRun(s: State, steps: seq<Step>)
    decreases |steps|
  {
    steps == [] || (Enabled(s, steps[0]) && IsRun(Apply(s, steps[0]), steps[1..]))
  }

  ghost function After(s: State, steps: seq<Step>): State
    requires IsRun(s, steps)
    decreases |steps|
  {
    if steps == [] then s else After(Apply(s, steps[0]), steps[1..])
  }

  lemma {:induction false} RunKeeps(s: State, steps: seq<Step>)
    requires Inv(s) && IsRun(s, steps)
    ensures Inv(After(s, steps))
    decreases |steps|
  {
    hide Inv;
    if steps != [] {
      StepKeeps(s, steps[0]);
      RunKeeps(Apply(s, steps[0]), steps[1..]);
    }
  }

  /** Over every run: the reader count is the number of requests inside serveSession, an idle timer
      implies no reader, an unfinished session and no keep-alive, and no sleeper is forgotten. */
  lemma EveryRun(steps: seq<Step>)
    requires IsRun(START, steps)
    ensures var s := After(START, steps);
      && s.m.readers == Served(s.requests)
      && (s.m.timer != NoTimer ==> s.m.readers == 0 && !s.m.complete && !s.m.background)
      && (forall r :: r in s.m.waiting ==> SleeperOk(s, r))
  {
    RunKeeps(START, steps);
  }

  /** An idle callback cancels only a session nobody is being served from and that is unfinished. */
  lemma IdleCancelIsIdle(steps: seq<Step>, r: nat)
    requires IsRun(START, steps) && Enabled(After(START, steps), Callback)
    requires !After(START, steps).m.cancelled && Apply(After(START, steps), Callback).m.cancelled
    ensures !After(START, steps).m.complete
    ensures r < |After(START, steps).requests| ==> !After(START, steps).requests[r].Served()
  {
    RunKeeps(START, steps);
    var s := After(START, steps);
    if r < |s.requests| && s.requests[r].Served() {
      ServedNobody(s.requests, r);
    }
  }

  // ---- Keep-alive against the idle timer ----

  /** Kept alive with no fired callback outstanding, a session is never idle-cancelled afterwards: no
      timer can start any more. In particular not when firing and callback are one step. */
  lemma {:induction false} KeptAliveStays(s: State, steps: seq<Step>)
    requires Inv(s) && IsRun(s, steps)
    requires s.m.background && s.m.callbacks == 0 && !s.m.cancelled
    ensures !After(s, steps).m.cancelled && After(s, steps).m.callbacks == 0
    decreases |steps|
  {
    if steps != [] {
      StepKeeps(s, steps[0]);
      KeptAliveStep(s, steps[0]);
      KeptAliveStays(Apply(s, steps[0]), steps[1..]);
    }
  }

  lemma KeptAliveStep(s: State, step: Step)
    requires Inv(s) && Enabled(s, step)
    requires s.m.background && s.m.callbacks == 0 && !s.m.cancelled
    ensures var s' := Apply(s, step); s'.m.background && s'.m.callbacks == 0 && !s'.m.cancelled
  {}

  lemma {:induction false} SomebodyServed(requests: seq<Request>) returns (r: nat)
    requires Served(requests) > 0
    ensures r < |requests| && requests[r].Served()
  {
    r := |requests| - 1;
    if !requests[r].Served() {
      r := SomebodyServed(requests[..r]);
    }
  }

  ghost predicate SameCancellation(s: State, s': State) {
    s'.m.background && s'.m.callbacks == s.m.callbacks && s'.m.complete == s.m.complete && s'.m.cancelled == s.m.cancelled
  }

  /** A request that is served can return and leave. */
  lemma LeaveOne(s: State, r: nat) returns (steps: seq<Step>)
    requires Inv(s) && s.m.waiting == {} && s.m.background && r < |s.requests| && s.requests[r].Served()
    ensures IsRun(s, steps)
    ensures var t := After(s, steps);
      Inv(t) && t.m.waiting == {} && SameCancellation(s, t) && Served(t.requests) == Served(s.requests) - 1
  {
    hide Inv, Enabled;
    var s1 := s;
    if s.requests[r].phase == Streaming {
      assert Enabled(s, Return(r)) by { CanReturn(s, r); }
      StepKeeps(s, Return(r));
      s1 := Apply(s, Return(r));
    }
    assert Enabled(s1, Leave(r, 1)) by { CanLeave(s1, r); }
    StepKeeps(s1, Leave(r, 1));
    var s2 := Apply(s1, Leave(r, 1));
    assert s2.requests == s.requests[r := s2.requests[r]];
    ServedSet(s.requests, r, s2.requests[r]);
    steps := [Leave(r, 1)];
    assert steps[1..] == [];
    assert IsRun(s1, steps) && After(s1, steps) == s2;
    if s.requests[r].phase == Streaming {
      var more := [Return(r)] + steps;
      assert more[1..] == steps;
      return more;
    }
  }

  /** Every request can. */
  lemma Drain(s: State) returns (steps: seq<Step>)
    requires Inv(s) && s.m.waiting == {} && s.m.background
    ensures IsRun(s, steps) && After(s, steps).m.readers == 0 && SameCancellation(s, After(s, steps))
    decreases Served(s.requests)
  {
    hide Inv, Enabled, Apply;
    assert s.m.readers == Served(s.requests) by { InvCounts(s); }
    if Served(s.requests) == 0 {
      return [];
    }
    var r := SomebodyServed(s.requests);
    var first := LeaveOne(s, r);
    var rest := Drain(After(s, first));
    RunsCompose(s, first, rest);
    return first + rest;
  }

  lemma InvCounts(s: State)
    requires Inv(s)
    ensures s.m.readers == Served(s.requests)
  {}

  lemma CanReturn(s: State, r: nat)
    requires r < |s.requests| && s.requests[r].phase == Streaming && s.m.waiting == {}
    ensures Enabled(s, Return(r))
  {}

  lemma CanLeave(s: State, r: nat)
    requires r < |s.requests| && s.requests[r].phase == Inside
    ensures Enabled(s, Leave(r, 1))
  {}

  /** An unfinished session can be idle-cancelled after a keep-alive exactly when a fired callback was
      still waiting for the lock: the callback does not look at `background`. */
  lemma KeptAliveCancelledIff(s: State)
    requires Inv(s) && !s.m.complete && !s.m.cancelled
    ensures (exists steps :: IsRun(Apply(s, Keep), steps) && After(Apply(s, Keep), steps).m.cancelled) <==> s.m.callbacks > 0
  {
    var kept := Apply(s, Keep);
    StepKeeps(s, Keep);
    if s.m.callbacks == 0 {
      forall steps | IsRun(kept, steps)
        ensures !After(kept, steps).m.cancelled
      {
        KeptAliveStays(kept, steps);
      }
    } else {
      var steps := CancelRun(kept);
    }
  }

  lemma CancelRun(s: State) returns (steps: seq<Step>)
    requires Inv(s) && s.m.background && s.m.callbacks > 0 && !s.m.complete
    ensures IsRun(s, steps) && After(s, steps).m.cancelled
  {
    hide Inv;
    StepKeeps(s, Announce(1));
    var announced := Apply(s, Announce(1));
    var drain := Drain(announced);
    var idle := After(announced, drain);
    assert IsRun(idle, [Callback]) && After(idle, [Callback]).m.cancelled by {
      assert [Callback][1..] == [];
    }
    RunsCompose(announced, drain, [Callback]);
    steps := [Announce(1)] + (drain + [Callback]);
    assert steps[1..] == drain + [Callback];
  }

  lemma {:induction false} RunsCompose(s: State, a: seq<Step>, b: seq<Step>)
    requires IsRun(s, a) && IsRun(After(s, a), b)
    ensures IsRun(s, a + b) && After(s, a + b) == After(After(s, a), b)
    decreases |a|
  {
    hide Enabled, Apply;
    if a == [] {
      assert a + b == b;
    } else {
      assert (a + b)[1..] == a[1..] + b;
      RunsCompose(Apply(s, a[0]), a[1..], b);
    }
  }

  /** Such a callback is left behind by one reader coming and going. */
  lemma FiredCallbackReachable()
    ensures var steps := [Arrive, Enter(0), Leave(0, 1), Fire];
      IsRun(START, steps) && After(START, steps).m.callbacks > 0 && After(START, steps).m.readers == 0
      && !After(START, steps).m.complete
  {
    var s1 := Apply(START, Arrive);
    var s2 := Apply(s1, Enter(0));
    var s3 := Apply(s2, Leave(0, 1));
    var s4 := Apply(s3, Fire);
    assert IsRun(s4, []) && After(s4, []) == s4;
    assert [Fire][1..] == [];
    assert IsRun(s3, [Fire]) && After(s3, [Fire]) == s4;
    assert [Leave(0, 1), Fire][1..] == [Fire];
    assert IsRun(s2, [Leave(0, 1), Fire]) && After(s2, [Leave(0, 1), Fire]) == s4;
    assert [Enter(0), Leave(0, 1), Fire][1..] == [Leave(0, 1), Fire];
    assert IsRun(s1, [Enter(0), Leave(0, 1), Fire]) && After(s1, [Enter(0), Leave(0, 1), Fire]) == s4;
    assert [Arrive, Enter(0), Leave(0, 1), Fire][1..] == [Enter(0), Leave(0, 1), Fire];
  }
}
