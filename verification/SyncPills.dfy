/** Poison pills over runs: the raw bytes of a message that could not be stored
    are its only copy in the archive, kept until a retry recovers it. */
module SyncPills {
  import opened Prelude
  import opened Uids
  import opened FetchRetry
  import opened Sync
  import opened SyncRun

  /** The bytes are still there, or the message is archived. */
  ghost predicate PillKept(db: Db, uid: Uid, raw: Bytes, cfg: Config) {
    || (uid in db.failed && db.failed[uid] == raw)
    || (KeyOf(cfg, raw).Some? && KeyOf(cfg, raw).value in db.messages)
  }

  /** No other message has, or will get, the UID the pill is filed under. */
  ghost predicate OwnsUid(server: Server, uid: Uid, raw: Bytes) {
    uid < server.next && (uid in server.delivered ==> server.delivered[uid] == raw)
  }

  /** Nor had one in a numbering some pass still has a chunk of. */
  ghost predicate OwnsUidEverywhere(s: State, uid: Uid, raw: Bytes) {
    && OwnsUid(s.server, uid, raw)
    && forall p :: p in s.passes && s.passes[p].Late? ==>
         (uid in s.passes[p].known.delivered ==> s.passes[p].known.delivered[uid] == raw)
  }

  /** A retry from another session takes the pill away exactly when it has stored
      the message, which then has its label; no other pill is touched. */
  lemma RetriedPillEnds(db: Db, uid: Uid, storing: Fault, cfg: Config)
    requires uid in db.failed
    ensures var after, key := ForeignDb(db, RetryFailed(uid, storing), cfg), KeyOf(cfg, db.failed[uid]);
            && after.failed == (if uid in after.failed then db.failed else db.failed - {uid})
            && (uid !in after.failed <==>
                  && key.Some? && storing.NoFault?
                  && forall k :: k in db.labels && k != key.value ==> db.labels[k] != uid)
            && (uid !in after.failed ==>
                  key.value in after.messages && after.labels == db.labels[key.value := uid])
            && (uid in after.failed ==> after == db)
  {
  }

  lemma TurnKeepsPill(w: Work, turn: Uid, a: Answer, server: Server, now: Time, uid: Uid, raw: Bytes, cfg: Config)
    requires uid in server.delivered ==> server.delivered[uid] == raw
    requires PillKept(w.db, uid, raw, cfg)
    requires Truthful(server, turn, a) && ProcessUid(w, turn, a, now, cfg).Some?
    ensures PillKept(ProcessUid(w, turn, a, now, cfg).value.db, uid, raw, cfg)
  {
  }

  lemma {:induction false} ChunkKeepsPill(w: Work, chunk: seq<Uid>, answers: Uid -> Answer, server: Server,
                                          now: Time, uid: Uid, raw: Bytes, cfg: Config)
    requires uid in server.delivered ==> server.delivered[uid] == raw
    requires PillKept(w.db, uid, raw, cfg)
    requires forall u :: u in chunk ==> Truthful(server, u, answers(u))
    requires ProcessChunk(w, chunk, answers, now, cfg).Some?
    ensures PillKept(ProcessChunk(w, chunk, answers, now, cfg).value.db, uid, raw, cfg)
    decreases |chunk|
  {
    if chunk != [] {
      assert chunk[0] in chunk && forall u :: u in chunk[1..] ==> u in chunk;
      TurnKeepsPill(w, chunk[0], answers(chunk[0]), server, now, uid, raw, cfg);
      ChunkKeepsPill(ProcessUid(w, chunk[0], answers(chunk[0]), now, cfg).value, chunk[1..], answers, server,
                     now, uid, raw, cfg);
    }
  }

  lemma BatchKeepsPill(db: Db, scan: Scan, answers: Uid -> Answer, server: Server, uid: Uid, raw: Bytes, cfg: Config)
    requires uid in server.delivered ==> server.delivered[uid] == raw
    requires PillKept(db, uid, raw, cfg) && Answered(server, scan, answers)
    ensures var b := BatchStep(db, scan, answers, server.validity, cfg);
            b.Committed? ==> PillKept(b.db, uid, raw, cfg)
  {
    var w, chunk := OpenBatch(db, scan), FirstBatch(scan.todo);
    if ProcessChunk(w, chunk, answers, scan.now, cfg).Some? {
      ChunkKeepsPill(w, chunk, answers, server, scan.now, uid, raw, cfg);
    }
  }

  lemma StepKeepsPill(s: State, e: Event, uid: Uid, raw: Bytes, cfg: Config)
    requires Enabled(s, e) && !e.Renumber?
    requires OwnsUidEverywhere(s, uid, raw) && PillKept(s.db, uid, raw, cfg)
    ensures OwnsUidEverywhere(Apply(s, e, cfg), uid, raw) && PillKept(Apply(s, e, cfg).db, uid, raw, cfg)
  {
    if e.RunBatch? {
      BatchKeepsPill(s.db, s.passes[e.pass].scan, e.answers, s.server, uid, raw, cfg);
    } else if e.CommitLate? && s.passes[e.pass].pending.ToStore? {
      BatchKeepsPill(s.db, s.passes[e.pass].pending.chunk, e.answers, s.passes[e.pass].known, uid, raw, cfg);
    }
  }

  ghost predicate SameNumbering(es: seq<Event>) {
    forall e :: e in es ==> !e.Renumber?
  }

  /** Within one UIDVALIDITY no run, disciplined or not, loses a pill's bytes
      before the message is archived. */
  lemma {:induction false} PillsKeepTheirBytes(s: State, es: seq<Event>, uid: Uid, raw: Bytes, cfg: Config)
    requires Legal(s, es, cfg) && SameNumbering(es)
    requires OwnsUidEverywhere(s, uid, raw) && PillKept(s.db, uid, raw, cfg)
    ensures PillKept(Run(s, es, cfg).db, uid, raw, cfg)
    decreases |es|
  {
    if es != [] {
      assert es[0] in es && forall e :: e in es[1..] ==> e in es;
      StepKeepsPill(s, es[0], uid, raw, cfg);
      PillsKeepTheirBytes(Apply(s, es[0], cfg), es[1..], uid, raw, cfg);
    }
  }

  // --- across a changed UIDVALIDITY ------------------------------------------------------

  /** No disciplined continuation within the numbering loses the bytes. */
  ghost predicate KeptForever(s: State, uid: Uid, raw: Bytes, cfg: Config) {
    forall es :: Legal(s, es, cfg) && DisciplinedRun(s, es, cfg) && SameNumbering(es)
      ==> PillKept(Run(s, es, cfg).db, uid, raw, cfg)
  }

  lemma LostNow(s: State, uid: Uid, raw: Bytes, cfg: Config)
    requires !PillKept(s.db, uid, raw, cfg)
    ensures !KeptForever(s, uid, raw, cfg)
  {
    assert Legal(s, [], cfg) && DisciplinedRun(s, [], cfg) && SameNumbering([]) && Run(s, [], cfg) == s;
  }

  lemma LostLater(s: State, e: Event, uid: Uid, raw: Bytes, cfg: Config)
    requires Enabled(s, e) && Disciplined(s, e) && !e.Renumber?
    requires !KeptForever(Apply(s, e, cfg), uid, raw, cfg)
    ensures !KeptForever(s, uid, raw, cfg)
  {
    var t := Apply(s, e, cfg);
    var es :| Legal(t, es, cfg) && DisciplinedRun(t, es, cfg) && SameNumbering(es)
              && !PillKept(Run(t, es, cfg).db, uid, raw, cfg);
    assert ([e] + es)[1..] == es;
    assert Legal(s, [e] + es, cfg) && DisciplinedRun(s, [e] + es, cfg) && SameNumbering([e] + es);
    assert Run(s, [e] + es, cfg) == Run(t, es, cfg);
  }

  /** The rows of `failed_messages` are keyed by UID and outlive a changed
      UIDVALIDITY. A pill's bytes are safe exactly when its UID lies below the
      new numbering: a message that gets the same UID and cannot be stored
      either overwrites them. */
  lemma RenumberedPillExact(s: State, validity: nat, base: Uid, spare: PassId, uid: Uid, cfg: Config)
    requires Invariant(s, cfg) && Enabled(s, Renumber(validity, base, {})) && spare !in s.passes
    requires uid in s.db.failed
    requires var key := KeyOf(cfg, s.db.failed[uid]); key.Some? ==> key.value !in s.db.messages
    ensures KeptForever(Apply(s, Renumber(validity, base, {}), cfg), uid, s.db.failed[uid], cfg) <==> uid < base
  {
    var t, raw := Apply(s, Renumber(validity, base, {}), cfg), s.db.failed[uid];
    assert forall p :: p in s.passes ==> ProgressOk(s, s.passes[p], cfg);
    if uid < base {
      forall es | Legal(t, es, cfg) && DisciplinedRun(t, es, cfg) && SameNumbering(es)
        ensures PillKept(Run(t, es, cfg).db, uid, raw, cfg)
      {
        PillsKeepTheirBytes(t, es, uid, raw, cfg);
      }
    } else {
      NewMessageOverwrites(t, spare, uid, raw, cfg);
    }
  }

  /** Storing fails for a reason of its own, and the pill is filed. */
  function Unstorable(body: Bytes): Uid -> Answer {
    (u: Uid) => Answer(Some(body), true, true, true, OtherError, NoFault, 0)
  }

  ghost predicate AboutToFetch(t: State, p: PassId, uid: Uid) {
    p in t.passes && t.passes[p].Fetching? && t.passes[p].scan.todo == [uid] && t.passes[p].scan.now == 0
  }

  lemma BatchOverwrites(t: State, p: PassId, uid: Uid, body: Bytes, cfg: Config)
    requires AboutToFetch(t, p, uid) && uid in t.server.delivered && t.server.delivered[uid] == body && body != []
    ensures Enabled(t, RunBatch(p, Unstorable(body)))
    ensures var db := ApplyBatch(t, p, Unstorable(body), cfg).db;
            db.messages == t.db.messages && uid in db.failed && db.failed[uid] == body
  {
    var scan := t.passes[p].scan;
    assert FirstBatch([uid]) == [uid] && [uid][1..] == [];
    var w := ProcessUid(OpenBatch(t.db, scan), uid, Unstorable(body)(uid), scan.now, cfg).value;
    assert ProcessChunk(OpenBatch(t.db, scan), [uid], Unstorable(body), scan.now, cfg) == Some(w);
  }

  lemma SearchListsOne(t: State, p: PassId, uid: Uid)
    requires p in t.passes && t.passes[p].AfterSelect? && FullSync(t.passes[p].row, t.server.validity)
    requires t.server.present == {uid}
    ensures var t1 := ApplySearch(t, p, None, 0);
            AboutToFetch(t1, p, uid) && t1.db == t.db && t1.server == t.server
  {
    var c := Candidates(t.passes[p].row, t.server.validity, {uid});
    assert uid in c;
    assert c[0] in c && c[|c| - 1] in c;
  }

  /** The losing run: the UID is given out again, and its new message fails too. */
  lemma NewMessageOverwrites(t: State, p: PassId, uid: Uid, raw: Bytes, cfg: Config)
    requires t.server.delivered == map[] && t.server.present == {} && t.server.next <= uid
    requires p !in t.passes && t.db.uidvalidity != Some(t.server.validity)
    requires KeyOf(cfg, raw).Some? ==> KeyOf(cfg, raw).value !in t.db.messages
    ensures !KeptForever(t, uid, raw, cfg)
  {
    var body := raw + [0];
    var t1 := Apply(t, Deliver(uid, body), cfg);
    var t2 := Apply(t1, Open(p), cfg);
    var t3 := Apply(t2, Select(p, true), cfg);
    SearchListsOne(t3, p, uid);
    var t4 := Apply(t3, Search(p, None, 0), cfg);
    BatchOverwrites(t4, p, uid, body, cfg);
    LostNow(Apply(t4, RunBatch(p, Unstorable(body)), cfg), uid, raw, cfg);
    LostLater(t4, RunBatch(p, Unstorable(body)), uid, raw, cfg);
    LostLater(t3, Search(p, None, 0), uid, raw, cfg);
    LostLater(t2, Select(p, true), uid, raw, cfg);
    LostLater(t1, Open(p), uid, raw, cfg);
    LostLater(t, Deliver(uid, body), uid, raw, cfg);
  }
}
