/** Reachable states in which a reader does not get what it was promised. */
module DownloadFailures {
  import opened Records
  import opened SessionMonitor
  import opened Downloads
  import opened DownloadInvariant
  import opened DownloadRuns
  import opened DownloadTheorems
  import opened DownloadReuse

  // ---- A session that has left the map ----

  const KEY: Key := "key"

  /** A session that announced one byte and then failed, and the next session of its key. */
  const FAILED: Download :=
    Download(KEY, None, Gone, true, Removed, Some(0), [1], FRESH.SetHeaders(-1, "").AddAvailable(1).Finish(true))

  const RETRY: Download := Download(KEY, None, Fetching, true, Undecided, Some(1), [], FRESH)

  /** The request of the first session took its snapshot before the failure. */
  const STALE: State :=
    State([[1], []], map[KEY := 1], map[], map[], [FAILED, RETRY], map[KEY := 1], [Snapped(0, -1, PartFile)],
          {}, {}, {}, {}, {}, [KEY, KEY])

  lemma AnnouncedReachable() returns (s: State)
    ensures Reachable(s)
    ensures s == State([[1]], map[KEY := 0], map[], map[],
                       [Download(KEY, None, Reading, true, Undecided, Some(0), [1], FRESH.SetHeaders(-1, "").AddAvailable(1))],
                       map[KEY := 0], [Joined(0)], {}, {}, {}, {}, {}, [KEY])
  {
    hide Reachable;
    s := EMPTY;
    StartReachable();
    Reaches(s, Arrive(KEY));
    s := Apply(s, Arrive(KEY));
    Reaches(s, Reader(0, FindRow));
    s := Apply(s, Reader(0, FindRow));
    Reaches(s, Reader(0, Join));
    s := Apply(s, Reader(0, Join));
    Reaches(s, Writer(0, OpenPart(true)));
    s := Apply(s, Writer(0, OpenPart(true)));
    Reaches(s, Writer(0, FetchOk(-1)));
    s := Apply(s, Writer(0, FetchOk(-1)));
    Reaches(s, Writer(0, ReadChunk([1])));
    s := Apply(s, Writer(0, ReadChunk([1])));
    Reaches(s, Writer(0, Announce));
    s := Apply(s, Writer(0, Announce));
    var nothing: Bytes := [];
    assert nothing + [1] == [1];
    assert s.sessions[0].received == [1];
    assert s.inodes[0] == [1];
    assert s.inodes == [[1]];
    assert s.part == map[KEY := 0] && s.active == map[KEY := 0];
  }

  lemma StartReachable()
    ensures Reachable(EMPTY)
  {
    assert IsRun(EMPTY, []);
  }

  lemma StaleReachable()
    ensures Reachable(STALE)
  {
    hide Reachable;
    var s := AnnouncedReachable();
    Reaches(s, Reader(0, Snapshot));
    s := Apply(s, Reader(0, Snapshot));
    Reaches(s, Writer(0, ReadFails));
    s := Apply(s, Writer(0, ReadFails));
    Reaches(s, Writer(0, Finish));
    s := Apply(s, Writer(0, Finish));
    Reaches(s, Writer(0, RemovePart(true)));
    s := Apply(s, Writer(0, RemovePart(true)));
    Reaches(s, Writer(0, Leave));
    s := Apply(s, Writer(0, Leave));
    Reaches(s, Prefetch(KEY, None));
    s := Apply(s, Prefetch(KEY, None));
    Reaches(s, Writer(1, OpenPart(true)));
    s := Apply(s, Writer(1, OpenPart(true)));
    assert s == STALE;
  }

  /** Its reader then opens the file of the next session, and waits for bytes that are not there without
      ever sleeping: reading changes nothing. No remove and no rename failed. */
  lemma StaleReaderSpins() returns (s: State)
    ensures Reachable(s) && s.faulty == {} && s.requests == [Streaming(0, 1, 0, -1, [], 1)]
    ensures Enabled(s, Reader(0, Copy(1))) && Apply(s, Reader(0, Copy(1))) == s
  {
    hide Reachable;
    StaleReachable();
    s := STALE;
    Reaches(s, Reader(0, OpenFile(0, -1)));
    s := Apply(s, Reader(0, OpenFile(0, -1)));
    Reaches(s, Reader(0, Check));
    s := Apply(s, Reader(0, Check));
    assert s.requests == [Streaming(0, 1, 0, -1, [], 1)];
    assert Apply(s, Reader(0, Copy(1))).requests[0].sent == [];
    assert Apply(s, Reader(0, Copy(1))).requests == s.requests;
  }

  /** Once the next session has written a byte, the reader sends it as if it were the first session's. */
  lemma StaleReaderSendsOtherBytes() returns (s: State)
    ensures Reachable(s) && s.faulty == {} && s.requests == [Streaming(0, 1, 0, -1, [2], 1)]
    ensures |s.sessions| == 2 && s.sessions[0].received == [1]
  {
    hide Reachable;
    StaleReachable();
    s := STALE;
    Reaches(s, Writer(1, FetchOk(-1)));
    s := Apply(s, Writer(1, FetchOk(-1)));
    Reaches(s, Writer(1, ReadChunk([2])));
    s := Apply(s, Writer(1, ReadChunk([2])));
    assert s.inodes[1] == [2];
    Reaches(s, Reader(0, OpenFile(0, -1)));
    s := Apply(s, Reader(0, OpenFile(0, -1)));
    Reaches(s, Reader(0, Check));
    s := Apply(s, Reader(0, Check));
    Reaches(s, Reader(0, Copy(1)));
    s := Apply(s, Reader(0, Copy(1)));
    assert s.requests[0].sent == [2];
    assert s.requests == [Streaming(0, 1, 0, -1, [2], 1)];
  }

  /** After a failed removal the next session does truncate the file of the one before, which a reader
      may still hold. */
  lemma FailedRemoveLosesBytes() returns (s: State)
    ensures Reachable(s) && s.faulty == {KEY} && s.inodes == [[]]
    ensures |s.sessions| == 2 && s.sessions[0].inode == Some(0) && s.sessions[0].received == [1]
  {
    hide Reachable;
    s := AnnouncedReachable();
    Reaches(s, Writer(0, ReadFails));
    s := Apply(s, Writer(0, ReadFails));
    Reaches(s, Writer(0, Finish));
    s := Apply(s, Writer(0, Finish));
    Reaches(s, Writer(0, RemovePart(false)));
    s := Apply(s, Writer(0, RemovePart(false)));
    Reaches(s, Writer(0, Leave));
    s := Apply(s, Writer(0, Leave));
    Reaches(s, Prefetch(KEY, None));
    s := Apply(s, Prefetch(KEY, None));
    Reaches(s, Writer(1, OpenPart(true)));
    s := Apply(s, Writer(1, OpenPart(true)));
    assert s.inodes == [[]];
  }

  // ---- Whole downloads, one after the other ----

  const NEW: Download := Download(KEY, None, Opening, false, Undecided, None, [], FRESH)

  /** A session that promoted `body` and left, and whether it recorded it. */
  function Done(i: nat, body: Bytes, ok: bool): Download {
    Download(KEY, None, Gone, true, Promoted, Some(i), body,
             FRESH.SetHeaders(-1, "").AddAvailable(|body|).SetFilePath(ArtifactFile).Finish(!ok))
  }

  function Published(s: State, j: nat, body: Bytes, ok: bool): State
    requires j < |s.sessions|
  {
    var i := |s.inodes|;
    s.(inodes := s.inodes + [body], makers := s.makers + [KEY], artifact := s.artifact[KEY := i],
       rows := if ok then s.rows[KEY := |body|] else s.rows,
       sessions := s.sessions[j := Done(i, body, ok)], active := s.active - {KEY},
       bodies := s.bodies + {(KEY, body)}, promoted := s.promoted + {(KEY, i)}, synced := s.synced + {i})
  }

  /** The same session when the body has ended. */
  function Filled(s: State, j: nat, body: Bytes): State
    requires j < |s.sessions|
  {
    var i := |s.inodes|;
    s.(inodes := s.inodes + [body], makers := s.makers + [KEY], part := s.part[KEY := i],
       bodies := s.bodies + {(KEY, body)}, synced := s.synced - {i},
       sessions := s.sessions[j := Download(KEY, None, Syncing, true, Undecided, Some(i), body,
                                            FRESH.SetHeaders(-1, "").AddAvailable(|body|))])
  }

  lemma Fill(s: State, j: nat, body: Bytes)
    requires Reachable(s) && j < |s.sessions| && s.sessions[j] == NEW && KEY !in s.part && body != []
    ensures Reachable(Filled(s, j, body))
  {
    hide Reachable;
    var t := s;
    Reaches(t, Writer(j, OpenPart(true)));
    t := Apply(t, Writer(j, OpenPart(true)));
    Reaches(t, Writer(j, FetchOk(-1)));
    t := Apply(t, Writer(j, FetchOk(-1)));
    Reaches(t, Writer(j, ReadChunk(body)));
    t := Apply(t, Writer(j, ReadChunk(body)));
    Reaches(t, Writer(j, Announce));
    t := Apply(t, Writer(j, Announce));
    Reaches(t, Writer(j, EndOfBody));
    t := Apply(t, Writer(j, EndOfBody));
    var u, nothing: Bytes := Filled(s, j, body), [];
    assert nothing + body == body;
    assert t.sessions == u.sessions;
    assert t.inodes[|s.inodes|] == body;
    assert t.inodes == u.inodes;
    assert t == u;
  }

  /** The same session when its file is the artifact. */
  function Moved(s: State, j: nat, body: Bytes): State
    requires j < |s.sessions|
  {
    var i := |s.inodes|;
    s.(inodes := s.inodes + [body], makers := s.makers + [KEY], artifact := s.artifact[KEY := i], bodies := s.bodies + {(KEY, body)},
       promoted := s.promoted + {(KEY, i)}, synced := s.synced + {i},
       sessions := s.sessions[j := Download(KEY, None, Recording, true, Promoted, Some(i), body,
                                            FRESH.SetHeaders(-1, "").AddAvailable(|body|).SetFilePath(ArtifactFile))])
  }

  lemma Move(s: State, j: nat, body: Bytes)
    requires Reachable(s) && j < |s.sessions| && s.sessions[j] == NEW && KEY !in s.part && body != []
    ensures Reachable(Moved(s, j, body))
  {
    hide Reachable;
    Fill(s, j, body);
    var t := Filled(s, j, body);
    Reaches(t, Writer(j, Sync(true)));
    t := Apply(t, Writer(j, Sync(true)));
    Reaches(t, Writer(j, Rename(true)));
    t := Apply(t, Writer(j, Rename(true)));
    Reaches(t, Writer(j, Relink));
    t := Apply(t, Writer(j, Relink));
    var u := Moved(s, j, body);
    assert t.sessions == u.sessions;
    assert t.part == u.part && t.synced == u.synced;
    assert t == u;
  }

  lemma End(s: State, j: nat, ok: bool)
    requires Reachable(s) && j < |s.sessions| && s.sessions[j].pc.Recording? && s.sessions[j].key == KEY
    ensures var x := s.sessions[j];
      Reachable(s.(rows := if ok then s.rows[KEY := x.m.available] else s.rows, active := s.active - {KEY},
                   sessions := s.sessions[j := x.(pc := Gone, m := x.m.Finish(!ok))]))
  {
    hide Reachable;
    var t, x := s, s.sessions[j];
    Reaches(t, Writer(j, Work.Record(ok)));
    t := Apply(t, Writer(j, Work.Record(ok)));
    Reaches(t, Writer(j, Finish));
    t := Apply(t, Writer(j, Finish));
    Reaches(t, Writer(j, Leave));
    t := Apply(t, Writer(j, Leave));
    assert t.sessions == s.sessions[j := x.(pc := Gone, m := x.m.Finish(!ok))];
  }

  /** Everything a writer does for a response of one chunk. */
  lemma Publish(s: State, j: nat, body: Bytes, ok: bool)
    requires Reachable(s) && j < |s.sessions| && s.sessions[j] == NEW && KEY !in s.part && body != []
    ensures Reachable(Published(s, j, body, ok))
  {
    hide Reachable;
    Move(s, j, body);
    End(Moved(s, j, body), j, ok);
    assert s.sessions[j := Moved(s, j, body).sessions[j]][j := Done(|s.inodes|, body, ok)] == Published(s, j, body, ok).sessions;
  }

  /** A request has taken the artifact's path, and its session has left. */
  lemma LeftSnapshot() returns (s: State)
    ensures Reachable(s) && s.part == map[] && s.active == map[] && s.faulty == {} && s.inodes == [[1]]
    ensures s.requests == [Snapped(0, -1, ArtifactFile)] && s.sessions == [Done(0, [1], true)]
  {
    hide Reachable;
    s := EMPTY;
    StartReachable();
    Reaches(s, Arrive(KEY));
    s := Apply(s, Arrive(KEY));
    Reaches(s, Reader(0, FindRow));
    s := Apply(s, Reader(0, FindRow));
    Reaches(s, Reader(0, Join));
    s := Apply(s, Reader(0, Join));
    Publish(s, 0, [1], true);
    s := Published(s, 0, [1], true);
    Reaches(s, Reader(0, Snapshot));
    s := Apply(s, Reader(0, Snapshot));
  }

  /** The next session of the key has then put its own file there, and the reader sends that one's byte as
      if it were the first one's. No file operation failed. */
  lemma StaleReaderOpensNextArtifact() returns (s: State)
    ensures Reachable(s) && s.faulty == {} && s.requests == [Streaming(0, 1, 0, -1, [2], 1)]
    ensures |s.sessions| == 2 && s.sessions[0].received == [1] && s.sessions[0].m.complete && !s.sessions[0].m.failed
  {
    hide Reachable;
    s := LeftSnapshot();
    Reaches(s, Prefetch(KEY, None));
    s := Apply(s, Prefetch(KEY, None));
    Publish(s, 1, [2], true);
    s := Published(s, 1, [2], true);
    Reaches(s, Reader(0, OpenFile(0, -1)));
    s := Apply(s, Reader(0, OpenFile(0, -1)));
    Reaches(s, Reader(0, Check));
    s := Apply(s, Reader(0, Check));
    Reaches(s, Reader(0, Copy(1)));
    s := Apply(s, Reader(0, Copy(1)));
    assert s.requests[0].sent == [2];
    assert s.requests == [Streaming(0, 1, 0, -1, [2], 1)];
  }

  /** A body of two bytes is recorded; one of one byte is promoted after it but not recorded. */
  lemma StaleRowReachable() returns (s: State)
    ensures Reachable(s) && s.part == map[] && s.active == map[] && s.requests == [] && s.faulty == {} && s.emptied == {}
    ensures (KEY, 1) in s.promoted && s.inodes == [[1, 2], [3]] && s.artifact == map[KEY := 1] && s.rows == map[KEY := 2]
    ensures s.sessions == [Done(0, [1, 2], true), Done(1, [3], false)]
  {
    hide Reachable;
    s := EMPTY;
    StartReachable();
    Reaches(s, Prefetch(KEY, None));
    s := Apply(s, Prefetch(KEY, None));
    Publish(s, 0, [1, 2], true);
    s := Published(s, 0, [1, 2], true);
    Reaches(s, Prefetch(KEY, None));
    s := Apply(s, Prefetch(KEY, None));
    Publish(s, 1, [3], false);
    s := Published(s, 1, [3], false);
  }

  /** A 304 then makes the next session announce two bytes of that one-byte artifact. */
  lemma StaleRowAnnounced() returns (s: State)
    ensures Reachable(s) && s.faulty == {} && s.emptied == {} && s.active == map[KEY := 2] && s.requests == [Joined(2)]
    ensures (KEY, 1) in s.promoted && |s.inodes| == 3 && s.inodes[1] == [3] && s.artifact == map[KEY := 1] && |s.sessions| == 3
    ensures s.sessions[2] == Download(KEY, Some(2), Revalidating, true, Dropped, None, [], FRESH.SetCachedFile(ArtifactFile, 2, ""))
  {
    hide Reachable;
    s := StaleRowReachable();
    Reaches(s, Arrive(KEY));
    s := Apply(s, Arrive(KEY));
    Reaches(s, Reader(0, FindRow));
    s := Apply(s, Reader(0, FindRow));
    Reaches(s, Reader(0, OpenHit(true, false)));
    s := Apply(s, Reader(0, OpenHit(true, false)));
    Reaches(s, Reader(0, Join));
    s := Apply(s, Reader(0, Join));
    Reaches(s, Writer(2, OpenPart(true)));
    s := Apply(s, Writer(2, OpenPart(true)));
    Reaches(s, Writer(2, FetchNotModified));
    s := Apply(s, Writer(2, FetchNotModified));
    Reaches(s, Writer(2, Unlink(true)));
    s := Apply(s, Writer(2, Unlink(true)));
    Reaches(s, Writer(2, Reuse));
    s := Apply(s, Writer(2, Reuse));
    assert s.requests == [Joined(2)];
  }

  /** Its reader opens the artifact and is to copy both. */
  lemma StaleRowOpened() returns (s: State)
    ensures Reachable(s) && s.faulty == {} && s.emptied == {} && InMap(s, 2) && s.requests == [Streaming(2, 1, 0, -1, [], 2)]
    ensures (KEY, 1) in s.promoted && |s.inodes| == 3 && s.inodes[1] == [3]
  {
    hide Reachable;
    s := StaleRowAnnounced();
    Reaches(s, Reader(0, Snapshot));
    s := Apply(s, Reader(0, Snapshot));
    Reaches(s, Reader(0, OpenFile(0, -1)));
    s := Apply(s, Reader(0, OpenFile(0, -1)));
    Reaches(s, Reader(0, Check));
    s := Apply(s, Reader(0, Check));
    assert s.requests == [Streaming(2, 1, 0, -1, [], 2)];
  }

  /** It is sent the one byte and goes round for the second one, with its session in the map and no failed
      file operation. */
  lemma StaleRowSpins() returns (s: State)
    ensures Reachable(s) && s.faulty == {} && InMap(s, 2) && s.requests == [Streaming(2, 1, 0, -1, [3], 2)]
    ensures Enabled(s, Reader(0, Copy(1))) && Apply(s, Reader(0, Copy(1))) == s
    ensures Stalls(s, 0) && (KEY, 1) in s.promoted
  {
    hide Reachable;
    s := StaleRowOpened();
    Reaches(s, Reader(0, Copy(2)));
    s := Apply(s, Reader(0, Copy(2)));
    assert s.requests[0].sent == [3];
    assert s.requests == [Streaming(2, 1, 0, -1, [3], 2)];
    assert Apply(s, Reader(0, Copy(1))).requests[0].sent == [3];
    assert Apply(s, Reader(0, Copy(1))).requests == s.requests;
  }

  /** It never gets further. */
  lemma StaleRowSpinsForever() returns (s: State)
    ensures Reachable(s) && s.faulty == {} && InMap(s, 2) && s.requests == [Streaming(2, 1, 0, -1, [3], 2)]
    ensures forall steps :: IsRun(s, steps) && (forall step :: step in steps ==> Undisturbed(step, 0)) ==>
              |After(s, steps).requests| > 0 && After(s, steps).requests[0] == s.requests[0] && Stalls(After(s, steps), 0)
  {
    hide Reachable, Inv, Stalls, IsRun, After, Undisturbed;
    s := StaleRowSpins();
    EveryRun(s);
    forall steps | IsRun(s, steps) && forall step :: step in steps ==> Undisturbed(step, 0)
      ensures |After(s, steps).requests| > 0 && After(s, steps).requests[0] == s.requests[0] && Stalls(After(s, steps), 0)
    {
      StallIsForever(s, 0, steps, KEY);
      StalledBound(After(s, steps), 0);
    }
  }

  lemma StalledBound(s: State, r: nat)
    requires Stalls(s, r)
    ensures r < |s.requests|
  {}
}
