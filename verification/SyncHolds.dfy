/** Give-up records and holds over runs: what removes a tombstone, what a rewind
    reaches, and how long a UID can keep the watermark. */
module SyncHolds {
  import opened Prelude
  import opened Uids
  import opened FetchRetry
  import opened Sync
  import opened SyncRun

  // --- a batch touches only the rows of its own UIDs -----------------------------------

  lemma {:induction false} ChunkLeavesOthers(w: Work, chunk: seq<Uid>, uid: Uid,
                                             answers: Uid -> Answer, now: Time, cfg: Config)
    requires uid !in chunk && ProcessChunk(w, chunk, answers, now, cfg).Some?
    ensures var w' := ProcessChunk(w, chunk, answers, now, cfg).value;
            SameFor(uid, w, w')
    decreases |chunk|
  {
    if chunk != [] {
      assert chunk[0] != uid;
      var w1 := ProcessUid(w, chunk[0], answers(chunk[0]), now, cfg).value;
      UidLeavesOthers(w, chunk[0], uid, answers(chunk[0]), now, cfg);
      ChunkLeavesOthers(w1, chunk[1..], uid, answers, now, cfg);
    }
  }

  lemma {:induction false} ChunkSplits(w: Work, pre: seq<Uid>, post: seq<Uid>,
                                       answers: Uid -> Answer, now: Time, cfg: Config)
    ensures ProcessChunk(w, pre + post, answers, now, cfg)
            == match ProcessChunk(w, pre, answers, now, cfg)
               case None => None
               case Some(w') => ProcessChunk(w', post, answers, now, cfg)
    decreases |pre|
  {
    if pre == [] {
      assert pre + post == post;
    } else {
      assert (pre + post)[0] == pre[0] && (pre + post)[1..] == pre[1..] + post;
      var r := ProcessUid(w, pre[0], answers(pre[0]), now, cfg);
      if r.Some? {
        ChunkSplits(r.value, pre[1..], post, answers, now, cfg);
      }
    }
  }

  lemma SplitAt(chunk: seq<Uid>, uid: Uid) returns (pre: seq<Uid>, post: seq<Uid>)
    requires Ascending(chunk) && uid in chunk
    ensures chunk == pre + ([uid] + post) && uid !in pre && uid !in post
  {
    var i :| 0 <= i < |chunk| && chunk[i] == uid;
    pre, post := chunk[..i], chunk[i + 1..];
  }

  /** As far as the row, the held mark and the clamp of `uid` go, `w'` is `w`. */
  ghost predicate SameFor(uid: Uid, w: Work, w': Work) {
    && (uid in w'.db.holds <==> uid in w.db.holds)
    && (uid in w.db.holds ==> w'.db.holds[uid] == w.db.holds[uid])
    && (uid in w'.held <==> uid in w.held)
    && (w'.holdAt == Some(uid) ==> w.holdAt == Some(uid))
  }

  /** In a committed batch the row of `uid` is what its own turn made of it. */
  lemma UidsTurn(w: Work, chunk: seq<Uid>, uid: Uid, answers: Uid -> Answer, now: Time, cfg: Config)
    returns (before: Work, after: Work)
    requires Ascending(chunk) && uid in chunk && ProcessChunk(w, chunk, answers, now, cfg).Some?
    ensures SameFor(uid, w, before)
    ensures Some(after) == ProcessUid(before, uid, answers(uid), now, cfg)
    ensures SameFor(uid, after, ProcessChunk(w, chunk, answers, now, cfg).value)
  {
    var pre, post := SplitAt(chunk, uid);
    ChunkSplits(w, pre, [uid] + post, answers, now, cfg);
    before := ProcessChunk(w, pre, answers, now, cfg).value;
    after := FirstOf(before, uid, post, answers, now, cfg);
    ChunkLeavesOthers(w, pre, uid, answers, now, cfg);
    ChunkLeavesOthers(after, post, uid, answers, now, cfg);
  }

  lemma FirstOf(w: Work, uid: Uid, post: seq<Uid>, answers: Uid -> Answer, now: Time, cfg: Config)
    returns (after: Work)
    requires ProcessChunk(w, [uid] + post, answers, now, cfg).Some?
    ensures Some(after) == ProcessUid(w, uid, answers(uid), now, cfg)
    ensures ProcessChunk(w, [uid] + post, answers, now, cfg)
            == ProcessChunk(after, post, answers, now, cfg)
  {
    assert ([uid] + post)[0] == uid && ([uid] + post)[1..] == post;
    after := ProcessUid(w, uid, answers(uid), now, cfg).value;
  }

  // --- tombstones -----------------------------------------------------------------------

  /** What ends a tombstone: its body arriving in a batch that commits, a
      changed UIDVALIDITY, or an operator forgetting it. */
  ghost predicate Ends(s: State, e: Event, uid: Uid, cfg: Config)
    requires Enabled(s, e)
  {
    match e
    case RunBatch(pass, answers) =>
      var scan := s.passes[pass].scan;
      && BatchStep(s.db, scan, answers, s.server.validity, cfg).Committed?
      && uid in FirstBatch(scan.todo) && uid in scan.held && HasBody(answers(uid))
    case Select(pass, _) =>
      FullSync(s.passes[pass].row, s.server.validity) && s.passes[pass].row.uidvalidity.Some?
    case Commit(Forget(cutoff)) => uid in s.db.holds && Purgeable(s.db.holds[uid], cutoff)
    case _ => false
  }

  lemma ChunkTombstone(w: Work, chunk: seq<Uid>, uid: Uid, answers: Uid -> Answer, now: Time, cfg: Config)
    requires Ascending(chunk) && Tombstoned(w.db.holds, uid)
    requires ProcessChunk(w, chunk, answers, now, cfg).Some?
    ensures var w' := ProcessChunk(w, chunk, answers, now, cfg).value;
            && (uid in w'.db.holds <==> !(uid in chunk && uid in w.held && HasBody(answers(uid))))
            && (uid in w'.db.holds ==>
                  && w'.db.holds[uid].gaveUp == w.db.holds[uid].gaveUp
                  && w'.db.holds[uid].firstSeen == w.db.holds[uid].firstSeen)
  {
    if uid in chunk {
      var before, after := UidsTurn(w, chunk, uid, answers, now, cfg);
    } else {
      ChunkLeavesOthers(w, chunk, uid, answers, now, cfg);
    }
  }

  lemma BatchTombstone(s: State, pass: PassId, answers: Uid -> Answer, uid: Uid, cfg: Config)
    requires Invariant(s, cfg) && Enabled(s, RunBatch(pass, answers)) && Tombstoned(s.db.holds, uid)
    ensures var t := ApplyBatch(s, pass, answers, cfg);
            && (Tombstoned(t.db.holds, uid) <==> !Ends(s, RunBatch(pass, answers), uid, cfg))
            && (Tombstoned(t.db.holds, uid) ==>
                  && t.db.holds[uid].gaveUp == s.db.holds[uid].gaveUp
                  && t.db.holds[uid].firstSeen == s.db.holds[uid].firstSeen)
  {
    var scan := s.passes[pass].scan;
    var w := OpenBatch(s.db, scan);
    if ProcessChunk(w, FirstBatch(scan.todo), answers, scan.now, cfg).Some? {
      assert ProgressOk(s, s.passes[pass], cfg);
      ChunkTombstone(w, FirstBatch(scan.todo), uid, answers, scan.now, cfg);
    }
  }

  /** One step: a tombstone, with the moment of the give-up, goes exactly then. */
  lemma TombstoneEndsExactly(s: State, e: Event, uid: Uid, cfg: Config)
    requires Invariant(s, cfg) && Enabled(s, e) && Tombstoned(s.db.holds, uid)
    ensures var t := Apply(s, e, cfg);
            && (Tombstoned(t.db.holds, uid) <==> !Ends(s, e, uid, cfg))
            && (Tombstoned(t.db.holds, uid) ==> t.db.holds[uid].gaveUp == s.db.holds[uid].gaveUp)
  {
    if e.RunBatch? {
      BatchTombstone(s, e.pass, e.answers, uid, cfg);
    }
  }

  ghost predicate NeverEnds(s: State, es: seq<Event>, uid: Uid, cfg: Config)
    requires Legal(s, es, cfg)
    decreases |es|
  {
    es != [] ==> !Ends(s, es[0], uid, cfg) && NeverEnds(Apply(s, es[0], cfg), es[1..], uid, cfg)
  }

  /** Over any run — retries, rewinds, checkpoints that overwrite a rewind — a
      give-up record survives unless one of those three things happens. */
  lemma {:induction false} GiveUpRecordsSurvive(s: State, es: seq<Event>, uid: Uid, cfg: Config)
    requires Invariant(s, cfg) && Legal(s, es, cfg) && DisciplinedRun(s, es, cfg)
    requires Tombstoned(s.db.holds, uid) && NeverEnds(s, es, uid, cfg)
    ensures var t := Run(s, es, cfg);
            Tombstoned(t.db.holds, uid) && t.db.holds[uid].gaveUp == s.db.holds[uid].gaveUp
    decreases |es|
  {
    if es != [] {
      TombstoneEndsExactly(s, es[0], uid, cfg);
      StepOk(s, es[0], cfg);
      GiveUpRecordsSurvive(Apply(s, es[0], cfg), es[1..], uid, cfg);
    }
  }

  // --- rewinding --------------------------------------------------------------------------

  /** After `retry-failed-fetches` no given-up UID is below the watermark, none
      is forgotten, and each has its window open again. */
  lemma RewindGoesBelowTombstones(db: Db, stamp: Time, now: Time, cfg: Config)
    requires db.uidnext.Some?
    ensures var db' := ForeignDb(db, Rewind(stamp), cfg);
            && db'.uidnext.Some? && db'.uidnext.value <= db.uidnext.value
            && Tombstones(db'.holds) == Tombstones(db.holds) && db'.holds.Keys == db.holds.Keys
            && (forall u :: u in Tombstones(db.holds) ==> db'.uidnext.value <= u)
            && (forall u :: u in Tombstones(db.holds) && cfg.maxHold > 0 && now < stamp + cfg.maxHold
                  ==> !HoldExpired(db'.holds[u].firstSeen, now, cfg.maxHold))
  {
  }

  /** A pass that nothing interrupts before its SEARCH. */
  ghost function StartPass(s: State, pass: PassId, names: bool, now: Time): State
    requires pass !in s.passes
  {
    ApplySearch(ApplySelect(ApplyOpen(s, pass), pass, names), pass, None, now)
  }

  lemma SelectOnCurrentRow(s: State, pass: PassId, names: bool)
    requires Current(s) && pass !in s.passes
    ensures var t := ApplySelect(ApplyOpen(s, pass), pass, names);
            && t.db == s.db && t.server == s.server
            && pass in t.passes && t.passes[pass].AfterSelect? && t.passes[pass].row == StoredRow(s.db)
  {
  }

  lemma StartPassScans(s: State, pass: PassId, names: bool, now: Time)
    requires Current(s) && pass !in s.passes
    requires Todo(StoredRow(s.db), s.server.validity, s.server.present, None) != []
    ensures var t := StartPass(s, pass, names, now);
            && t.db == s.db && pass in t.passes
            && t.passes[pass] == Fetching(StartScan(s.db, StoredRow(s.db),
                 Todo(StoredRow(s.db), s.server.validity, s.server.present, None), now))
  {
    SelectOnCurrentRow(s, pass, names);
  }

  /** The next pass asks again for every given-up UID still on the server, knows
      its hold history, and starts with its window open. */
  lemma RewindReachesEveryTombstone(s: State, stamp: Time, pass: PassId, names: bool, now: Time,
                                    uid: Uid, cfg: Config)
    requires Current(s) && pass !in s.passes && s.db.uidnext.Some?
    requires uid in Tombstones(s.db.holds) && uid in s.server.present && 1 <= uid
    ensures var t := StartPass(Apply(s, Commit(Rewind(stamp)), cfg), pass, names, now);
            && pass in t.passes && t.passes[pass].Fetching?
            && uid in t.passes[pass].scan.todo && uid in t.passes[pass].scan.held
            && Tombstoned(t.db.holds, uid)
            && (cfg.maxHold > 0 && now < stamp + cfg.maxHold
                ==> !HoldExpired(t.db.holds[uid].firstSeen, now, cfg.maxHold))
  {
    var s1 := Apply(s, Commit(Rewind(stamp)), cfg);
    RewindGoesBelowTombstones(s.db, stamp, now, cfg);
    StartPassScans(s1, pass, names, now);
  }

  // --- holds ------------------------------------------------------------------------------

  lemma UidMovesUp(w: Work, uid: Uid, a: Answer, now: Time, cfg: Config)
    requires ProcessUid(w, uid, a, now, cfg).Some?
    requires w.highestSeen <= uid && (w.holdAt.Some? ==> w.holdAt.value < uid)
    ensures var w' := ProcessUid(w, uid, a, now, cfg).value;
            && w.highestSeen <= w'.highestSeen <= uid
            && (w.holdAt.Some? ==> w'.holdAt == w.holdAt)
            && (w'.holdAt.Some? ==> w'.holdAt.value <= uid)
            && (w.highestSeen < uid ==> Resume(w) <= Resume(w'))
  {
  }

  lemma {:induction false} ChunkMovesUp(w: Work, chunk: seq<Uid>, answers: Uid -> Answer,
                                        now: Time, cfg: Config)
    requires Ascending(chunk) && ProcessChunk(w, chunk, answers, now, cfg).Some?
    requires forall u :: u in chunk ==> w.highestSeen <= u && (w.holdAt.Some? ==> w.holdAt.value < u)
    ensures var w' := ProcessChunk(w, chunk, answers, now, cfg).value;
            && (w.holdAt.Some? ==> w'.holdAt == w.holdAt)
            && (IsAhead(chunk, w.highestSeen) ==> Resume(w) <= Resume(w'))
    decreases |chunk|
  {
    if chunk != [] {
      var first, rest := chunk[0], chunk[1..];
      assert first in chunk;
      UidMovesUp(w, first, answers(first), now, cfg);
      assert forall u :: u in rest ==> u in chunk && first < u;
      ChunkMovesUp(ProcessUid(w, first, answers(first), now, cfg).value, rest, answers, now, cfg);
    }
  }

  lemma UidLeavesOthers(w: Work, uid: Uid, other: Uid, a: Answer, now: Time, cfg: Config)
    requires other != uid && ProcessUid(w, uid, a, now, cfg).Some?
    ensures SameFor(other, w, ProcessUid(w, uid, a, now, cfg).value)
  {
  }

  /** By the turn of `uid` the pass knows that bodies of present messages come
      back empty: from an earlier batch, an earlier UID, or its own probe. */
  ghost predicate BodiesEmptied(w: Work, chunk: seq<Uid>, uid: Uid, answers: Uid -> Answer) {
    w.emptying || exists v :: v in chunk && v <= uid && !HasBody(answers(v)) && answers(v).present
  }

  function FirstSighting(holds: Holds, uid: Uid, a: Answer): Time {
    if a.attemptOk && uid in holds then holds[uid].firstSeen else a.stamp
  }

  /** `uid` has no body, is taken to be present, and its window is still open,
      whether this is its first pass or one of many. */
  ghost predicate PutOnHold(w: Work, chunk: seq<Uid>, uid: Uid, answers: Uid -> Answer, now: Time, cfg: Config) {
    && uid in chunk && !HasBody(answers(uid)) && BodiesEmptied(w, chunk, uid, answers)
    && !HoldExpired(FirstSighting(w.db.holds, uid, answers(uid)), now, cfg.maxHold)
  }

  /** One UID's turn: it becomes the clamp, unless a lower one is, exactly when
      it is put on hold. */
  lemma TurnHolds(w: Work, chunk: seq<Uid>, answers: Uid -> Answer, now: Time, cfg: Config)
    requires chunk != [] && Ascending(chunk)
    requires ProcessUid(w, chunk[0], answers(chunk[0]), now, cfg).Some?
    ensures var first := chunk[0];
            var w1 := ProcessUid(w, first, answers(first), now, cfg).value;
            && (w1.emptying <==> w.emptying || (!HasBody(answers(first)) && answers(first).present))
            && w1.holdAt == (if PutOnHold(w, chunk, first, answers, now, cfg)
                             then Some(if w.holdAt.Some? then Min(w.holdAt.value, first) else first)
                             else w.holdAt)
  {
    assert forall v :: v in chunk && v <= chunk[0] ==> v == chunk[0];
  }

  lemma LaterHolds(w: Work, chunk: seq<Uid>, uid: Uid, answers: Uid -> Answer, now: Time, cfg: Config)
    requires chunk != [] && Ascending(chunk) && uid != chunk[0]
    requires ProcessUid(w, chunk[0], answers(chunk[0]), now, cfg).Some?
    ensures PutOnHold(w, chunk, uid, answers, now, cfg)
            <==> PutOnHold(ProcessUid(w, chunk[0], answers(chunk[0]), now, cfg).value, chunk[1..], uid,
                           answers, now, cfg)
  {
    var w1 := ProcessUid(w, chunk[0], answers(chunk[0]), now, cfg).value;
    TurnHolds(w, chunk, answers, now, cfg);
    UidLeavesOthers(w, chunk[0], uid, answers(chunk[0]), now, cfg);
    assert uid in chunk <==> uid in chunk[1..];
    if uid in chunk {
      assert chunk[0] < uid && chunk[0] in chunk;
      assert forall v :: v in chunk <==> v == chunk[0] || v in chunk[1..];
      assert BodiesEmptied(w, chunk, uid, answers) <==> BodiesEmptied(w1, chunk[1..], uid, answers);
    }
  }

  /** The clamp a chunk leaves is the lowest of the one it found and the UIDs it
      puts on hold. */
  lemma {:induction false} ChunkHoldsLowest(w: Work, chunk: seq<Uid>, answers: Uid -> Answer, now: Time,
                                            cfg: Config)
    requires Ascending(chunk) && ProcessChunk(w, chunk, answers, now, cfg).Some?
    requires forall u :: u in chunk ==> w.highestSeen <= u && (w.holdAt.Some? ==> w.holdAt.value < u)
    ensures var h := ProcessChunk(w, chunk, answers, now, cfg).value.holdAt;
            && (h == w.holdAt || (h.Some? && PutOnHold(w, chunk, h.value, answers, now, cfg)))
            && (forall u :: PutOnHold(w, chunk, u, answers, now, cfg) ==> h.Some? && h.value <= u)
    decreases |chunk|
  {
    if chunk != [] {
      var first, rest := chunk[0], chunk[1..];
      assert first in chunk;
      var w1 := ProcessUid(w, first, answers(first), now, cfg).value;
      UidMovesUp(w, first, answers(first), now, cfg);
      TurnHolds(w, chunk, answers, now, cfg);
      assert forall u :: u in rest ==> u in chunk && first < u;
      ChunkHoldsLowest(w1, rest, answers, now, cfg);
      ChunkMovesUp(w1, rest, answers, now, cfg);
      forall u | u != first
        ensures PutOnHold(w, chunk, u, answers, now, cfg) <==> PutOnHold(w1, rest, u, answers, now, cfg)
      {
        LaterHolds(w, chunk, u, answers, now, cfg);
      }
      assert !PutOnHold(w1, rest, first, answers, now, cfg);
    }
  }

  /** Within a pass the checkpoint never retreats, a hold once taken stays, and
      the clamp is the lowest UID held: no checkpoint passes any UID put on hold,
      for the first time or again. Only the seed of a full resync may be one
      above: it is the old numbering's watermark, not a checkpoint of this one. */
  lemma CheckpointsNeverRetreat(s: State, pass: PassId, answers: Uid -> Answer, cfg: Config)
    requires Invariant(s, cfg) && Enabled(s, RunBatch(pass, answers))
    requires BatchStep(s.db, s.passes[pass].scan, answers, s.server.validity, cfg).Committed?
    ensures var scan := s.passes[pass].scan;
            var b := BatchStep(s.db, scan, answers, s.server.validity, cfg);
            && b.db.uidnext.Some?
            && (CheckpointUidnext(scan.highestSeen, scan.holdAt) <= b.db.uidnext.value
                || (s.server.announces && scan.highestSeen == scan.todo[0]))
            && b.db.uidnext.value == CheckpointUidnext(b.scan.highestSeen, b.scan.holdAt)
            && IsAhead(b.scan.todo, b.scan.highestSeen)
            && (scan.holdAt.Some? ==> b.scan.holdAt == scan.holdAt && b.db.uidnext.value <= scan.holdAt.value)
    ensures var scan := s.passes[pass].scan;
            var b := BatchStep(s.db, scan, answers, s.server.validity, cfg);
            var w, chunk := OpenBatch(s.db, scan), FirstBatch(scan.todo);
            && (forall u :: PutOnHold(w, chunk, u, answers, scan.now, cfg) ==>
                  b.scan.holdAt.Some? && b.scan.holdAt.value <= u && b.db.uidnext.value <= u)
            && (b.scan.holdAt != scan.holdAt ==>
                  b.scan.holdAt.Some? && PutOnHold(w, chunk, b.scan.holdAt.value, answers, scan.now, cfg))
  {
    var scan := s.passes[pass].scan;
    var w, chunk := OpenBatch(s.db, scan), FirstBatch(scan.todo);
    BatchCommits(s, pass, answers, cfg);
    assert ProgressOk(s, s.passes[pass], cfg);
    AheadOrSeeded(scan, s.server);
    ChunkMovesUp(w, chunk, answers, scan.now, cfg);
    ChunkHoldsLowest(w, chunk, answers, scan.now, cfg);
  }

  /** A committed batch leaves the mailbox under the numbering it worked in, and of
      the hold rows below its checkpoint nothing but tombstones. */
  lemma CheckpointCollects(db: Db, scan: Scan, answers: Uid -> Answer, validity: nat, cfg: Config)
    requires BatchStep(db, scan, answers, validity, cfg).Committed?
    ensures var after := BatchStep(db, scan, answers, validity, cfg).db;
            && after.uidvalidity == Some(validity) && after.uidnext.Some?
            && forall u :: u in after.holds && u < after.uidnext.value ==> Tombstoned(after.holds, u)
  {
    var w := ProcessChunk(OpenBatch(db, scan), FirstBatch(scan.todo), answers, scan.now, cfg).value;
    var after := Checkpoint(w, validity);
    forall u | u in after.holds && u < Resume(w) ensures Tombstoned(after.holds, u) {
      ReclaimTakesPassedHolds(w.db.holds, Resume(w), u);
    }
  }

  lemma AheadOrSeeded(scan: Scan, server: Server)
    requires scan.todo != [] && Ascending(scan.todo)
    requires forall u :: u in scan.todo ==> scan.highestSeen < u + Slack(server)
    ensures var chunk := FirstBatch(scan.todo);
            && Ascending(chunk) && (forall u :: u in chunk ==> u in scan.todo && scan.highestSeen <= u)
            && (IsAhead(chunk, scan.highestSeen) || (server.announces && scan.highestSeen == scan.todo[0]))
  {
    assert scan.todo[0] in scan.todo;
    assert forall u :: u in scan.todo ==> scan.todo[0] <= u;
  }

  lemma ChunkHold(w: Work, chunk: seq<Uid>, uid: Uid, answers: Uid -> Answer, now: Time, cfg: Config)
    requires Ascending(chunk) && uid in w.db.holds
    requires ProcessChunk(w, chunk, answers, now, cfg).Some?
    ensures var w' := ProcessChunk(w, chunk, answers, now, cfg).value;
            && (uid in w'.db.holds ==> w'.db.holds[uid].firstSeen == w.db.holds[uid].firstSeen)
            && (answers(uid).attemptOk && w.holdAt != Some(uid) && w'.holdAt == Some(uid)
                ==> !HoldExpired(w.db.holds[uid].firstSeen, now, cfg.maxHold))
  {
    if uid in chunk {
      var before, after := UidsTurn(w, chunk, uid, answers, now, cfg);
    } else {
      ChunkLeavesOthers(w, chunk, uid, answers, now, cfg);
    }
  }

  lemma BatchHold(s: State, pass: PassId, answers: Uid -> Answer, uid: Uid, cfg: Config)
    requires Invariant(s, cfg) && Enabled(s, RunBatch(pass, answers)) && uid in s.db.holds
    requires BatchStep(s.db, s.passes[pass].scan, answers, s.server.validity, cfg).Committed?
    ensures var scan := s.passes[pass].scan;
            var b := BatchStep(s.db, scan, answers, s.server.validity, cfg);
            && (uid in b.db.holds ==> b.db.holds[uid].firstSeen == s.db.holds[uid].firstSeen)
            && (answers(uid).attemptOk && scan.holdAt != Some(uid) && b.scan.holdAt == Some(uid)
                ==> !HoldExpired(s.db.holds[uid].firstSeen, scan.now, cfg.maxHold))
  {
    var scan := s.passes[pass].scan;
    assert ProgressOk(s, s.passes[pass], cfg);
    ChunkHold(OpenBatch(s.db, scan), FirstBatch(scan.todo), uid, answers, scan.now, cfg);
  }

  /** The hold row of `uid` is there all along, and no retry restarts its clock. */
  ghost predicate OneOutage(s: State, es: seq<Event>, uid: Uid, cfg: Config)
    requires Legal(s, es, cfg)
    decreases |es|
  {
    && uid in s.db.holds
    && (es != [] ==>
          && !(es[0].Commit? && es[0].foreign.Rewind?)
          && OneOutage(Apply(s, es[0], cfg), es[1..], uid, cfg))
  }

  lemma {:induction false} OutageKeepsItsClock(s: State, es: seq<Event>, uid: Uid, cfg: Config)
    requires Invariant(s, cfg) && Legal(s, es, cfg) && DisciplinedRun(s, es, cfg)
    requires OneOutage(s, es, uid, cfg)
    ensures uid in Run(s, es, cfg).db.holds
    ensures Run(s, es, cfg).db.holds[uid].firstSeen == s.db.holds[uid].firstSeen
    decreases |es|
  {
    if es != [] {
      var t := Apply(s, es[0], cfg);
      assert uid in t.db.holds;
      StepOk(s, es[0], cfg);
      if es[0].RunBatch? {
        var scan := s.passes[es[0].pass].scan;
        if BatchStep(s.db, scan, es[0].answers, s.server.validity, cfg).Committed? {
          BatchHold(s, es[0].pass, es[0].answers, uid, cfg);
        }
      }
      OutageKeepsItsClock(t, es[1..], uid, cfg);
    }
  }

  /** Through one continuous outage, whatever else happens, a UID becomes the
      clamp only of passes whose clock is inside its first sighting + window. */
  lemma HoldsAreBounded(s: State, es: seq<Event>, pass: PassId, answers: Uid -> Answer, uid: Uid,
                        cfg: Config)
    requires Invariant(s, cfg) && Legal(s, es, cfg) && DisciplinedRun(s, es, cfg)
    requires OneOutage(s, es, uid, cfg)
    requires var t := Run(s, es, cfg);
             && Enabled(t, RunBatch(pass, answers)) && answers(uid).attemptOk
             && var scan := t.passes[pass].scan;
                var b := BatchStep(t.db, scan, answers, t.server.validity, cfg);
             && b.Committed? && scan.holdAt != Some(uid) && b.scan.holdAt == Some(uid)
    ensures 0 < cfg.maxHold
    ensures Run(s, es, cfg).passes[pass].scan.now < s.db.holds[uid].firstSeen + cfg.maxHold
  {
    RunOk(s, es, cfg);
    OutageKeepsItsClock(s, es, uid, cfg);
    BatchHold(Run(s, es, cfg), pass, answers, uid, cfg);
  }

  /** `uid` was given up on, its window is over by `since`, no pass is clamped on
      it, and every pass under way reads a clock of `since` or later. */
  ghost predicate Spent(s: State, uid: Uid, since: Time, cfg: Config) {
    && Tombstoned(s.db.holds, uid)
    && HoldExpired(s.db.holds[uid].firstSeen, since, cfg.maxHold)
    && forall p :: p in s.passes && s.passes[p].Fetching?
         ==> since <= s.passes[p].scan.now && s.passes[p].scan.holdAt != Some(uid)
  }

  /** The clock is monotone, sightings are recorded, nothing arms or ends the tombstone. */
  ghost predicate Quiet(s: State, e: Event, uid: Uid, since: Time, cfg: Config)
    requires Enabled(s, e)
  {
    && !Ends(s, e, uid, cfg)
    && match e
       case Search(_, _, now) => since <= now
       case RunBatch(_, answers) => answers(uid).attemptOk
       case Commit(foreign) => !foreign.Rewind?
       case _ => true
  }

  ghost predicate QuietRun(s: State, es: seq<Event>, uid: Uid, since: Time, cfg: Config)
    requires Legal(s, es, cfg)
    decreases |es|
  {
    es != [] ==>
      && Quiet(s, es[0], uid, since, cfg)
      && QuietRun(Apply(s, es[0], cfg), es[1..], uid, since, cfg)
  }

  lemma SpentBatch(s: State, pass: PassId, answers: Uid -> Answer, uid: Uid, since: Time, cfg: Config)
    requires Invariant(s, cfg) && Enabled(s, RunBatch(pass, answers)) && Spent(s, uid, since, cfg)
    requires Quiet(s, RunBatch(pass, answers), uid, since, cfg)
    ensures Spent(ApplyBatch(s, pass, answers, cfg), uid, since, cfg)
  {
    BatchTombstone(s, pass, answers, uid, cfg);
    if BatchStep(s.db, s.passes[pass].scan, answers, s.server.validity, cfg).Committed? {
      BatchHold(s, pass, answers, uid, cfg);
    }
  }

  lemma SpentSearch(s: State, pass: PassId, limit: Option<int>, now: Time, uid: Uid, since: Time, cfg: Config)
    requires Enabled(s, Search(pass, limit, now)) && Spent(s, uid, since, cfg) && since <= now
    ensures Spent(ApplySearch(s, pass, limit, now), uid, since, cfg)
  {
  }

  lemma SpentStep(s: State, e: Event, uid: Uid, since: Time, cfg: Config)
    requires Invariant(s, cfg) && Enabled(s, e) && Spent(s, uid, since, cfg)
    requires Quiet(s, e, uid, since, cfg)
    ensures Spent(Apply(s, e, cfg), uid, since, cfg)
  {
    match e
    case RunBatch(pass, answers) => SpentBatch(s, pass, answers, uid, since, cfg);
    case Search(pass, limit, now) => SpentSearch(s, pass, limit, now, uid, since, cfg);
    case _ =>
  }

  /** Giving up is final: after it no pass, ever, is held back by that UID. */
  lemma {:induction false} SpentHoldsNeverClampAgain(s: State, es: seq<Event>, uid: Uid, since: Time,
                                                     cfg: Config)
    requires Invariant(s, cfg) && Legal(s, es, cfg) && DisciplinedRun(s, es, cfg)
    requires Spent(s, uid, since, cfg) && QuietRun(s, es, uid, since, cfg)
    ensures Spent(Run(s, es, cfg), uid, since, cfg)
    decreases |es|
  {
    if es != [] {
      SpentStep(s, es[0], uid, since, cfg);
      StepOk(s, es[0], cfg);
      SpentHoldsNeverClampAgain(Apply(s, es[0], cfg), es[1..], uid, since, cfg);
    }
  }
}
