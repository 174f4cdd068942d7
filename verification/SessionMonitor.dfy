/** The mutex-protected state of one shared download (the session struct of internal/cache/cache.go) and
    its critical sections: as functions on values, which the protocol modules use, and as the methods
    of a class, proved to compute them. */
module SessionMonitor {

  /** Where a reader finds the bytes: the growing part file, or the artifact it becomes. */
  datatype FilePath = PartFile | ArtifactFile

  /** The timer idleTimer points to: none, one still running, or one that has fired. */
  datatype Timer = NoTimer | Running | Fired

  /** `waiting` is the set of requests asleep on the condition; `callbacks` counts idle callbacks that
      have fired and not yet taken the lock; `stray` counts running timers nobody points to. */
  datatype Monitor = Monitor(
    available: nat, total: int, contentType: string, filePath: FilePath,
    ready: bool, done: bool, complete: bool, failed: bool,
    readers: nat, background: bool, timer: Timer, stray: nat, callbacks: nat, cancelled: bool,
    waiting: set<nat>)
  {
    /** Stop and forget the idle timer. */
    function WithoutTimer(): Monitor { this.(timer := NoTimer) }

    function AddReader(): Monitor { this.(readers := readers + 1).WithoutTimer() }

    function RemoveReader(ttl: int): Monitor {
      var left := if readers > 0 then readers - 1 else 0;
      if left != 0 || complete || background || ttl <= 0 then this.(readers := left)
      else this.(readers := left, timer := Running, stray := if timer == Running then stray + 1 else stray)
    }

    function KeepAlive(): Monitor { this.(background := true).WithoutTimer() }

    /** The runtime fires the timer: its callback now waits for the lock. */
    function Fire(): Monitor
      requires timer == Running
    {
      this.(timer := Fired, callbacks := callbacks + 1)
    }

    predicate CancelsNow() { readers == 0 && !complete }

    function Callback(): Monitor
      requires callbacks > 0
    {
      this.(callbacks := callbacks - 1, cancelled := cancelled || CancelsNow())
    }

    function Broadcast(): Monitor { this.(waiting := {}) }

    function Wait(request: nat): Monitor { this.(waiting := waiting + {request}) }

    function SetHeaders(total': int, contentType': string): Monitor {
      this.(total := total', contentType := contentType', ready := true)
    }

    function SetCachedFile(path: FilePath, size: nat, contentType': string): Monitor {
      this.(filePath := path, total := size, available := size, contentType := contentType', ready := true).Broadcast()
    }

    function SetFilePath(path: FilePath): Monitor { this.(filePath := path) }

    function AddAvailable(n: nat): Monitor { this.(available := available + n).Broadcast() }

    function Finish(failed': bool): Monitor {
      this.(failed := failed', complete := true, ready := true, done := true).WithoutTimer().Broadcast()
    }
  }

  /** A session as getOrStart makes it. */
  const FRESH := Monitor(0, -1, "", PartFile, false, false, false, false, 0, false, NoTimer, 0, 0, false, {})

  class Session {
    var available: nat
    var total: int
    var contentType: string
    var filePath: FilePath
    var ready: bool
    var done: bool
    var complete: bool
    var failed: bool
    var readers: nat
    var background: bool
    var idleTimer: Timer
    var stray: nat
    var callbacks: nat
    var cancelled: bool
    var waiting: set<nat>

    function View(): Monitor
      reads this
    {
      Monitor(available, total, contentType, filePath, ready, done, complete, failed,
              readers, background, idleTimer, stray, callbacks, cancelled, waiting)
    }

    constructor ()
      ensures View() == FRESH
    {
      available, total, contentType, filePath := 0, -1, "", PartFile;
      ready, done, complete, failed := false, false, false, false;
      readers, background, idleTimer, stray, callbacks, cancelled := 0, false, NoTimer, 0, 0, false;
      waiting := {};
    }

    method AddReader()
      modifies this
      ensures View() == old(View()).AddReader()
    {
      readers := readers + 1;
      if idleTimer != NoTimer {
        idleTimer := NoTimer;
      }
    }

    method RemoveReader(ttl: int)
      modifies this
      ensures View() == old(View()).RemoveReader(ttl)
    {
      if readers > 0 {
        readers := readers - 1;
      }
      if readers != 0 || complete || background || ttl <= 0 {
        return;
      }
      if idleTimer == Running {
        stray := stray + 1;
      }
      idleTimer := Running;
    }

    /** The body of the idle timer's callback. */
    method IdleCallback()
      requires callbacks > 0
      modifies this
      ensures View() == old(View()).Callback()
    {
      callbacks := callbacks - 1;
      if readers == 0 && !complete {
        cancelled := true;
      }
    }

    method KeepAlive()
      modifies this
      ensures View() == old(View()).KeepAlive()
    {
      background := true;
      if idleTimer != NoTimer {
        idleTimer := NoTimer;
      }
    }

    method SetHeaders(total: int, contentType: string)
      modifies this
      ensures View() == old(View()).SetHeaders(total, contentType)
    {
      this.total, this.contentType := total, contentType;
      if !ready {
        ready := true;
      }
    }

    method SetCachedFile(path: FilePath, size: nat, contentType: string)
      modifies this
      ensures View() == old(View()).SetCachedFile(path, size, contentType)
    {
      filePath, total, available, this.contentType := path, size, size, contentType;
      if !ready {
        ready := true;
      }
      waiting := {};
    }

    method SetFilePath(path: FilePath)
      modifies this
      ensures View() == old(View()).SetFilePath(path)
    {
      filePath := path;
    }

    method AddAvailable(n: nat)
      modifies this
      ensures View() == old(View()).AddAvailable(n)
    {
      available := available + n;
      waiting := {};
    }

    method Finish(failed: bool)
      modifies this
      ensures View() == old(View()).Finish(failed)
    {
      if idleTimer != NoTimer {
        idleTimer := NoTimer;
      }
      this.failed := failed;
      complete := true;
      if !ready {
        ready := true;
      }
      if !done {
        done := true;
      }
      waiting := {};
    }
  }
}
