/** One reader of a growing file: streamGrowingFile of internal/cache/cache.go, against every schedule
    of the writer, the request's context and the client. */
module Streaming {
  import opened Records
  import opened Sequences

  /** What others do while the reader is not holding the lock. */
  datatype Move =
    | Write(bytes: Bytes)     // the writer appends to the file
    | Announce                // addAvailable, for what it has written
    | Finish(failed: bool)    // finish
    | Cancel                  // the request's context ends; its waker broadcasts
    | HangUp                  // the client goes: writing to it may fail from now on
    | BreakDisk               // reading the file may fail from now on

  datatype State = State(
    file: Bytes, available: nat, total: int, complete: bool, failed: bool, cancelled: bool, clientGone: bool, diskBroken: bool)
  {

    /** What is announced is in the file, and a finished download announced all of its body. */
    ghost predicate Valid() {
      && available <= |file|
      && (failed ==> complete)
      && (complete && !failed ==> available == |file| && (total >= 0 ==> |file| == total))
    }

    /** A finished writer does nothing more. It finishes without error only once everything written
        is announced and, under a Content-Length, only after exactly that many bytes. */
    function After(m: Move): State {
      match m
      case Write(bytes) => if complete then this else this.(file := file + bytes)
      case Announce => if complete then this else this.(available := |file|)
      case Finish(f) =>
        if complete || (!f && (available != |file| || (total >= 0 && |file| != total))) then this
        else this.(complete := true, failed := f)
      case Cancel => this.(cancelled := true)
      case HangUp => this.(clientGone := true)
      case BreakDisk => this.(diskBroken := true)
    }

    /** How a state may differ from an earlier one. */
    ghost predicate Follows(s: State) {
      && s.file <= file && s.available <= available && s.total == total
      && (s.complete ==> complete && failed == s.failed && file == s.file && available == s.available)
      && (s.cancelled ==> cancelled) && (s.clientGone ==> clientGone) && (s.diskBroken ==> diskBroken)
    }

    /** Nothing stands in the way of a reader: the download is complete, and neither the request nor its client
        nor the disk has given up. */
    predicate Smooth() { complete && !failed && !cancelled && !clientGone && !diskBroken }
  }

  lemma MoveFollows(s: State, m: Move)
    requires s.Valid()
    ensures s.After(m).Valid() && s.After(m).Follows(s)
    ensures (m.Cancel? ==> s.After(m).cancelled) && (m.HangUp? ==> s.After(m).clientGone) && (m.BreakDisk? ==> s.After(m).diskBroken)
  {}

  /** Where things end up when all moves have been made. */
  function Final(s: State, script: seq<Move>): State
    decreases |script|
  {
    if script == [] then s else Final(s.After(script[0]), script[1..])
  }

  lemma {:induction false} FinalFollows(s: State, script: seq<Move>)
    requires s.Valid()
    ensures Final(s, script).Valid() && Final(s, script).Follows(s)
    decreases |script|
  {
    if script != [] {
      MoveFollows(s, script[0]);
      FinalFollows(s.After(script[0]), script[1..]);
    }
  }

  /** The session and its file as one reader meets them, with the moves still to come. */
  class World {
    var now: State
    var script: seq<Move>

    constructor (start: State, script: seq<Move>)
      ensures now == start && this.script == script
    {
      now := start;
      this.script := script;
    }

    /** One move of somebody else. */
    method Step()
      requires now.Valid() && script != []
      modifies this
      ensures now == old(now).After(old(script[0])) && script == old(script[1..])
      ensures now.Valid() && now.Follows(old(now)) && Final(now, script) == old(Final(now, script))
    {
      MoveFollows(now, script[0]);
      now := now.After(script[0]);
      script := script[1..];
    }

    /** Time passes: any number of moves. */
    method Interfere()
      requires now.Valid()
      modifies this
      ensures now.Valid() && now.Follows(old(now)) && |script| <= |old(script)|
      ensures Final(now, script) == old(Final(now, script))
      ensures |script| == |old(script)| ==> now == old(now)
    {
      hide Final;
      var moves: nat :| moves <= |script|;
      for n := 0 to moves
        invariant now.Valid() && now.Follows(old(now)) && |script| == |old(script)| - n
        invariant Final(now, script) == old(Final(now, script))
        invariant n == 0 ==> now == old(now)
      {
        Step();
      }
    }

    /** ReadAt: all of `count` bytes, or fewer and an error: the end of the file, or a failing disk. */
    method ReadAt(offset: nat, count: nat) returns (data: Bytes, atEnd: bool, failed: bool)
      ensures |data| <= count && (data != [] ==> offset + |data| <= |now.file|)
      ensures offset <= |now.file| ==> offset + |data| <= |now.file| && data == now.file[offset..offset + |data|]
      ensures !atEnd && !failed ==> |data| == count
      ensures atEnd ==> !failed && |data| < count && offset + |data| >= |now.file|
      ensures failed ==> now.diskBroken
    {
      var there := if offset > |now.file| then 0 else if offset + count <= |now.file| then count else |now.file| - offset;
      if now.diskBroken {
        var n: nat :| n <= there;
        var fails: bool :| true;
        if fails {
          data := if offset > |now.file| then [] else now.file[offset..offset + n];
          return data, false, true;
        }
      }
      data := if offset > |now.file| then [] else now.file[offset..offset + there];
      return data, there < count, false;
    }

    /** Writing to the client: all of it, or a part and an error. */
    method Send(data: Bytes) returns (count: nat, failed: bool)
      ensures count <= |data| && (!failed ==> count == |data|)
      ensures failed ==> now.clientGone
    {
      if now.clientGone {
        count :| count <= |data|;
        failed :| true;
        if failed {
          return count, true;
        }
      }
      return |data|, false;
    }
  }

  datatype Outcome =
    | Delivered       // nil
    | Failed          // the session's error
    | Cancelled       // the request's context
    | ClientGone      // writing to the client failed
    | DiskFailed      // reading the file failed
    | Asleep          // waiting, with nothing left that could happen

  const BUFFER: nat := 65536

  /** A loop that lets others move makes progress when they do. */
  ghost predicate Waited(now: State, left: nat, earlier: State, before: nat) {
    left <= before && (left == before ==> now == earlier)
  }

  /** The wait on the condition: until there is something new to read or nothing more will come. */
  method AwaitBytes(w: World, offset: nat) returns (stopped: Outcome)
    requires w.now.Valid()
    modifies w
    ensures w.now.Valid() && w.now.Follows(old(w.now)) && Waited(w.now, |w.script|, old(w.now), |old(w.script)|)
    ensures Final(w.now, w.script) == old(Final(w.now, w.script))
    ensures stopped == Delivered ==> offset < w.now.available || w.now.complete
    ensures stopped == Cancelled ==> w.now.cancelled
    ensures stopped == Asleep ==> !w.now.complete && !w.now.cancelled && offset >= w.now.available && w.script == []
    ensures stopped == Delivered || stopped == Cancelled || stopped == Asleep
  {
    hide Final;
    w.Interfere();
    while offset >= w.now.available && !w.now.complete
      invariant w.now.Valid() && w.now.Follows(old(w.now)) && Final(w.now, w.script) == old(Final(w.now, w.script))
      invariant Waited(w.now, |w.script|, old(w.now), |old(w.script)|)
      decreases |w.script|
    {
      if w.now.cancelled {
        return Cancelled;
      }
      if w.script == [] {
        return Asleep;
      }
      w.Step();
    }
    return Delivered;
  }

  /** The inner loop: everything up to `limit`, one buffer at a time. */
  method CopyTo(w: World, start: nat, limit: nat, sent0: Bytes) returns (stopped: Outcome, sent: Bytes)
    requires w.now.Valid() && start + |sent0| < limit <= w.now.available && IsSlice(w.now.file, start, sent0)
    modifies w
    ensures w.now.Valid() && w.now.Follows(old(w.now)) && Waited(w.now, |w.script|, old(w.now), |old(w.script)|)
    ensures IsSlice(w.now.file, start, sent) && start + |sent| <= limit
    ensures Final(w.now, w.script) == old(Final(w.now, w.script))
    ensures stopped == Delivered ==> start + |sent| == limit
    ensures stopped == ClientGone ==> w.now.clientGone
    ensures stopped == DiskFailed ==> w.now.diskBroken
    ensures stopped == Delivered || stopped == ClientGone || stopped == DiskFailed
  {
    hide IsSlice, Final;
    sent := sent0;
    var offset := start + |sent|;
    while offset < limit
      invariant w.now.Valid() && w.now.Follows(old(w.now)) && Final(w.now, w.script) == old(Final(w.now, w.script))
      invariant Waited(w.now, |w.script|, old(w.now), |old(w.script)|)
      invariant offset == start + |sent| <= limit && IsSlice(w.now.file, start, sent)
      decreases limit - offset
    {
      ghost var before := w.now;
      w.Interfere();
      SliceStays(before.file, w.now.file, start, sent);
      var count := if BUFFER > limit - offset then limit - offset else BUFFER;
      var data, atEnd, diskFailed := w.ReadAt(offset, count);
      if |data| > 0 {
        var n, writeFailed := w.Send(data);
        SliceMore(w.now.file, start, sent, data[..n]);
        sent := sent + data[..n];
        if writeFailed {
          return ClientGone, sent;
        }
        offset := offset + |data|;
      }
      if diskFailed {
        return DiskFailed, sent;
      }
    }
    return Delivered, sent;
  }

  lemma NothingSent(file: Bytes, start: nat)
    ensures IsSlice(file, start, [])
  {}

  /** What a request asked for: the bytes start..end, or all from `start` on. */
  predicate Wanted(file: Bytes, start: nat, end: int, sent: Bytes) {
    if end >= 0 then start <= end < |file| && sent == file[start..end + 1]
    else sent == if start <= |file| then file[start..] else []
  }

  /** Everything a finished download announced has been sent. */
  lemma SentAll(s: State, start: nat, end: int, sent: Bytes)
    requires s.Valid() && IsSlice(s.file, start, sent) && start + |sent| >= s.available && s.complete
    requires end >= 0 ==> start + |sent| <= end < s.total
    ensures s.failed || Wanted(s.file, start, end, sent)
    ensures s.failed || end < 0
  {}

  /** What each outcome says of the world, and of what was sent. */
  predicate Truthful(s: State, script: seq<Move>, start: nat, end: int, outcome: Outcome, sent: Bytes) {
    match outcome
    case Delivered => Wanted(s.file, start, end, sent) && (end < 0 ==> s.complete && !s.failed)
    case Failed => s.failed
    case Cancelled => s.cancelled
    case ClientGone => s.clientGone
    case DiskFailed => s.diskBroken
    case Asleep => !s.complete && !s.cancelled && script == [] && start + |sent| >= s.available
  }

  /** When nothing stands in the way in the end, everything that was asked for is delivered. */
  lemma Concludes(s: State, script: seq<Move>, start: nat, end: int, outcome: Outcome, sent: Bytes)
    requires s.Valid() && Truthful(s, script, start, end, outcome, sent)
    ensures Final(s, script).Smooth() ==> outcome == Delivered && Wanted(Final(s, script).file, start, end, sent)
  {
    FinalFollows(s, script);
  }

  lemma SentPart(s: State, start: nat, end: int, sent: Bytes)
    requires IsSlice(s.file, start, sent) && 0 <= start <= end && |sent| == end + 1 - start
    ensures Wanted(s.file, start, end, sent)
  {}

  /** streamGrowingFile. `end` is the last byte wanted, or negative for all of them. */
  method StreamGrowingFile(w: World, start: nat, end: int) returns (outcome: Outcome, sent: Bytes)
    requires w.now.Valid()
    requires end >= 0 ==> start <= end < w.now.total
    modifies w
    ensures w.now.Valid() && w.now.Follows(old(w.now))
    ensures IsSlice(w.now.file, start, sent)
    ensures end >= 0 ==> |sent| <= end + 1 - start
    ensures Truthful(w.now, w.script, start, end, outcome, sent)
    ensures var last := old(Final(w.now, w.script));
      last.Smooth() ==> outcome == Delivered && Wanted(last.file, start, end, sent)
  {
    hide IsSlice, Final, Wanted;
    var offset := start;
    sent := [];
    assert IsSlice(w.now.file, start, sent) by { NothingSent(w.now.file, start); }
    while end < 0 || offset <= end
      invariant w.now.Valid() && w.now.Follows(old(w.now)) && Final(w.now, w.script) == old(Final(w.now, w.script))
      invariant offset == start + |sent| && IsSlice(w.now.file, start, sent)
      invariant end >= 0 ==> offset <= end + 1
      decreases |w.script|, if offset <= |w.now.file| then |w.now.file| - offset else 0
    {
      ghost var before := w.now;
      var waited := AwaitBytes(w, offset);
      SliceStays(before.file, w.now.file, start, sent);
      if waited == Asleep {
        Concludes(w.now, w.script, start, end, Asleep, sent);
        return Asleep, sent;
      }
      if w.now.cancelled {
        Concludes(w.now, w.script, start, end, Cancelled, sent);
        return Cancelled, sent;
      }
      var available, failed := w.now.available, w.now.failed;
      if offset >= available {
        SentAll(w.now, start, end, sent);
        outcome := if failed then Failed else Delivered;
        Concludes(w.now, w.script, start, end, outcome, sent);
        return outcome, sent;
      }
      var limit := if end >= 0 && available > end + 1 then end + 1 else available;
      var copied;
      copied, sent := CopyTo(w, start, limit, sent);
      if copied != Delivered {
        Concludes(w.now, w.script, start, end, copied, sent);
        return copied, sent;
      }
      offset := limit;
    }
    SentPart(w.now, start, end, sent);
    Concludes(w.now, w.script, start, end, Delivered, sent);
    return Delivered, sent;
  }
}
