/** The folder: which label a batch leaves on which UID, and that a mailbox synced
    to the top has every message in it. */
module SyncLabels {
  import opened Prelude
  import opened Uids
  import opened FetchRetry
  import opened Sync
  import opened SyncRun
  import opened SyncPass
  import opened SyncConfluence

  // --- one batch -----------------------------------------------------------------------

  /** FETCH returned a body whose dedup key is `key`. */
  predicate Carries(a: Answer, key: Key, cfg: Config) {
    HasBody(a) && KeyOf(cfg, a.body.value) == Some(key)
  }

  /** No other message's label stands on the UID. */
  ghost predicate IsFree(labels: map<Key, Uid>, key: Key, uid: Uid) {
    forall k :: k in labels && k != key ==> labels[k] != uid
  }

  /** UNIQUE (mailbox_id, uid). */
  ghost predicate Apart(labels: map<Key, Uid>) {
    forall j, k :: j in labels && k in labels && labels[j] == labels[k] ==> j == k
  }

  /** The label of `key` stays, or is that of a UID of the chunk that carries it. */
  ghost predicate IsMoved(key: Key, before: Db, after: Db, chunk: seq<Uid>, answers: Uid -> Answer, cfg: Config) {
    && (key in before.labels ==> key in after.labels)
    && (key in after.labels ==>
          || (key in before.labels && before.labels[key] == after.labels[key])
          || (key in after.messages && IsCarrier(after.labels[key], key, chunk, answers, cfg)))
  }

  ghost predicate IsCarrier(u: Uid, key: Key, chunk: seq<Uid>, answers: Uid -> Answer, cfg: Config) {
    u in chunk && Carries(answers(u), key, cfg) && answers(u).storing.NoFault?
  }

  /** The message is archived, and labelled with `u` or a later UID that carries it. */
  ghost predicate IsFiled(u: Uid, key: Key, after: Db, chunk: seq<Uid>, answers: Uid -> Answer, cfg: Config) {
    && key in after.messages && key in after.labels
    && u <= after.labels[key] && IsCarrier(after.labels[key], key, chunk, answers, cfg)
  }

  /** What a batch over `chunk` may and must do to the label of `key`. A UID that
      meets neither a failing write nor another message's label gets its message
      filed. */
  ghost predicate IsRelabelled(key: Key, before: Db, after: Db, chunk: seq<Uid>, answers: Uid -> Answer, cfg: Config) {
    && IsMoved(key, before, after, chunk, answers, cfg)
    && forall u :: IsCarrier(u, key, chunk, answers, cfg) && IsFree(before.labels, key, u)
         ==> IsFiled(u, key, after, chunk, answers, cfg)
  }

  lemma UidLabels(w: Work, uid: Uid, a: Answer, now: Time, key: Key, cfg: Config)
    requires ProcessUid(w, uid, a, now, cfg).Some?
    ensures var after := ProcessUid(w, uid, a, now, cfg).value.db;
            && (forall k :: k in w.db.messages ==> k in after.messages)
            && (Apart(w.db.labels) ==> Apart(after.labels))
            && (after.labels != w.db.labels ==>
                  exists k :: Carries(a, k, cfg) && a.storing.NoFault? && k in after.messages
                              && after.labels == w.db.labels[k := uid])
            && (Carries(a, key, cfg) && a.storing.NoFault? && IsFree(w.db.labels, key, uid) ==>
                  key in after.messages && after.labels == w.db.labels[key := uid])
  {
    if HasBody(a) && KeyOf(cfg, a.body.value).Some? {
      assert Carries(a, KeyOf(cfg, a.body.value).value, cfg);
    }
  }

  /** The first UID's step, then the others': still the same account of `key`. */
  lemma InTurn(key: Key, before: Db, mid: Db, after: Db, chunk: seq<Uid>, answers: Uid -> Answer, cfg: Config)
    requires chunk != [] && Ascending(chunk)
    requires IsRelabelled(key, mid, after, chunk[1..], answers, cfg)
    requires forall k :: k in mid.messages ==> k in after.messages
    requires mid.labels != before.labels ==>
               exists k :: Carries(answers(chunk[0]), k, cfg) && answers(chunk[0]).storing.NoFault? && k in mid.messages
                           && mid.labels == before.labels[k := chunk[0]]
    requires Carries(answers(chunk[0]), key, cfg) && answers(chunk[0]).storing.NoFault?
               && IsFree(before.labels, key, chunk[0]) ==>
               key in mid.messages && mid.labels == before.labels[key := chunk[0]]
    ensures IsRelabelled(key, before, after, chunk, answers, cfg)
  {
    var first := chunk[0];
    assert first in chunk && forall u :: u in chunk <==> u == first || u in chunk[1..];
    assert forall u :: u in chunk[1..] ==> first < u;
    forall u | IsCarrier(u, key, chunk, answers, cfg) && IsFree(before.labels, key, u)
      ensures IsFiled(u, key, after, chunk, answers, cfg)
    {
      if u != first {
        assert IsCarrier(u, key, chunk[1..], answers, cfg) && IsFree(mid.labels, key, u);
        assert IsFiled(u, key, after, chunk[1..], answers, cfg);
      }
    }
  }

  lemma {:induction false} ChunkLabels(w: Work, chunk: seq<Uid>, answers: Uid -> Answer, now: Time, key: Key,
                                       cfg: Config)
    requires Ascending(chunk) && ProcessChunk(w, chunk, answers, now, cfg).Some?
    ensures var after := ProcessChunk(w, chunk, answers, now, cfg).value.db;
            && IsRelabelled(key, w.db, after, chunk, answers, cfg)
            && (Apart(w.db.labels) ==> Apart(after.labels))
            && forall k :: k in w.db.messages ==> k in after.messages
    decreases |chunk|
  {
    if chunk != [] {
      UidLabels(w, chunk[0], answers(chunk[0]), now, key, cfg);
      var w1 := ProcessUid(w, chunk[0], answers(chunk[0]), now, cfg).value;
      ChunkLabels(w1, chunk[1..], answers, now, key, cfg);
      InTurn(key, w.db, w1.db, ProcessChunk(w, chunk, answers, now, cfg).value.db, chunk, answers, cfg);
    }
  }

  lemma BatchLabels(db: Db, scan: Scan, answers: Uid -> Answer, validity: nat, key: Key, cfg: Config)
    requires Ascending(scan.todo) && BatchStep(db, scan, answers, validity, cfg).Committed?
    ensures var after := BatchStep(db, scan, answers, validity, cfg).db;
            && IsRelabelled(key, db, after, FirstBatch(scan.todo), answers, cfg)
            && (Apart(db.labels) ==> Apart(after.labels))
  {
    ChunkLabels(OpenBatch(db, scan), FirstBatch(scan.todo), answers, scan.now, key, cfg);
  }

  // --- the archive as the folder shows it ------------------------------------------------

  /** The archived messages that carry a label here. */
  function Foldered(messages: seq<Key>, labels: map<Key, Uid>): seq<Key>
    decreases |messages|
  {
    if messages == [] then []
    else
      var n := |messages| - 1;
      Foldered(messages[..n], labels) + if messages[n] in labels then [messages[n]] else []
  }

  lemma {:induction false} FolderedIsBoth(messages: seq<Key>, labels: map<Key, Uid>, k: Key)
    ensures k in Foldered(messages, labels) <==> k in messages && k in labels
    decreases |messages|
  {
    if messages != [] {
      var n := |messages| - 1;
      FolderedIsBoth(messages[..n], labels, k);
      assert messages == messages[..n] + [messages[n]];
    }
  }

  /** As if what has no label here were not archived. */
  ghost function InFolder(s: State): State {
    s.(db := s.db.(messages := Foldered(s.db.messages, s.db.labels)))
  }

  /** Until a batch of this numbering is committed, a scan leaves no UID behind. */
  ghost predicate ScansFromFirst(s: State) {
    !Current(s) ==> forall p :: p in s.passes && s.passes[p].Fetching? ==> SkipsNone(s.server, s.passes[p].scan)
  }

  ghost predicate SkipsNone(server: Server, scan: Scan) {
    forall u, v :: u in server.delivered && u !in scan.todo && v in scan.todo ==> v < u
  }

  /** Everything said of archived messages holds of those in the folder. */
  ghost predicate Labelled(s: State, cfg: Config) {
    Clean(s, cfg) && Invariant(InFolder(s), cfg) && ScansFromFirst(s)
  }

  ghost predicate SameArchive(a: seq<Key>, b: seq<Key>) {
    forall k :: k in a <==> k in b
  }

  lemma SameArchiveSameAccounts(s: State, messages: seq<Key>, cfg: Config)
    requires Invariant(s, cfg) && SameArchive(s.db.messages, messages)
    ensures Invariant(s.(db := s.db.(messages := messages)), cfg)
  {
    var t := s.(db := s.db.(messages := messages));
    assert Keeps(s, t, cfg);
    KeepsRow(s, t, StoredRow(s.db), cfg);
    KeepsPasses(s, t, {}, cfg);
  }

  /** A numbering no batch of which is committed: nothing has to be in the folder yet. */
  lemma UnsyncedIsLabelled(s: State, cfg: Config)
    requires Clean(s, cfg) && !Current(s) && ScansFromFirst(s)
    ensures Labelled(s, cfg)
  {
    var t := InFolder(s);
    forall p | p in t.passes ensures ProgressOk(t, t.passes[p], cfg) {
      assert ProgressOk(s, s.passes[p], cfg);
      if s.passes[p].Fetching? {
        UnsyncedScanOk(s, t.db, s.passes[p].scan, cfg);
      }
    }
  }

  lemma UnsyncedScanOk(s: State, db: Db, scan: Scan, cfg: Config)
    requires ScanOk(s.db, s.server, s.ledger, scan, cfg) && SkipsNone(s.server, scan) && scan.todo != []
    ensures ScanOk(db, s.server, s.ledger, scan, cfg)
  {
    assert scan.todo[0] in scan.todo;
  }

  // --- a batch does to the folder what it does to the archive -------------------------------

  /** `v` is `w` with the folder for an archive. */
  ghost predicate IsFolderDb(v: Db, w: Db) {
    && v == w.(messages := v.messages)
    && (forall k :: k in v.messages <==> k in w.labels)
    && forall k :: k in w.labels ==> k in w.messages
  }

  ghost predicate IsFolderOf(v: Work, w: Work) {
    v == w.(db := v.db, inserted := v.inserted) && IsFolderDb(v.db, w.db)
  }

  lemma StoredInFolder(w: Db, v: Db, uid: Uid, raw: Bytes, storing: Fault, cfg: Config)
    requires IsFolderDb(v, w)
    ensures match ProcessOneMessage(w, uid, raw, storing, cfg)
            case Stored(w', _) =>
              var v' := ProcessOneMessage(v, uid, raw, storing, cfg);
              v'.Stored? && IsFolderDb(v'.db, w')
            case other => ProcessOneMessage(v, uid, raw, storing, cfg) == other
  {
    match ProcessOneMessage(w, uid, raw, storing, cfg)
    case Stored(w', _) =>
      var key := KeyOf(cfg, raw).value;
      assert forall k :: k in UpsertMessage(v.messages, key).0 <==> k in v.messages || k == key;
      assert forall k :: k in UpsertMessage(w.messages, key).0 <==> k in w.messages || k == key;
    case _ =>
  }

  lemma BodyInFolder(w: Work, v: Work, uid: Uid, a: Answer, cfg: Config)
    requires IsFolderOf(v, w) && HasBody(a)
    ensures var w', v' := OnBody(w, uid, a, cfg), OnBody(v, uid, a, cfg);
            (w'.Some? <==> v'.Some?) && (w'.Some? ==> IsFolderOf(v'.value, w'.value))
  {
    var wd, vd := w.db, v.db;
    if uid in w.held {
      wd, vd := wd.(holds := ClearAttempts(wd.holds, uid)), vd.(holds := ClearAttempts(vd.holds, uid));
    }
    StoredInFolder(wd, vd, uid, a.body.value, a.storing, cfg);
  }

  lemma UidInFolder(w: Work, v: Work, uid: Uid, a: Answer, now: Time, cfg: Config)
    requires IsFolderOf(v, w)
    ensures var w', v' := ProcessUid(w, uid, a, now, cfg), ProcessUid(v, uid, a, now, cfg);
            (w'.Some? <==> v'.Some?) && (w'.Some? ==> IsFolderOf(v'.value, w'.value))
  {
    if HasBody(a) {
      BodyInFolder(w, v, uid, a, cfg);
    }
  }

  lemma {:induction false} ChunkInFolder(w: Work, v: Work, chunk: seq<Uid>, answers: Uid -> Answer, now: Time,
                                         cfg: Config)
    requires IsFolderOf(v, w)
    ensures var w', v' := ProcessChunk(w, chunk, answers, now, cfg), ProcessChunk(v, chunk, answers, now, cfg);
            (w'.Some? <==> v'.Some?) && (w'.Some? ==> IsFolderOf(v'.value, w'.value))
    decreases |chunk|
  {
    if chunk != [] {
      UidInFolder(w, v, chunk[0], answers(chunk[0]), now, cfg);
      var w1 := ProcessUid(w, chunk[0], answers(chunk[0]), now, cfg);
      if w1.Some? {
        var v1 := ProcessUid(v, chunk[0], answers(chunk[0]), now, cfg);
        ChunkInFolder(w1.value, v1.value, chunk[1..], answers, now, cfg);
      }
    }
  }

  lemma BatchInFolder(s: State, pass: PassId, answers: Uid -> Answer, cfg: Config)
    requires Labelled(s, cfg) && Enabled(s, RunBatch(pass, answers))
    ensures var s', t' := ApplyBatch(s, pass, answers, cfg), ApplyBatch(InFolder(s), pass, answers, cfg);
            && t' == s'.(db := s'.db.(messages := t'.db.messages))
            && SameArchive(t'.db.messages, InFolder(s').db.messages)
  {
    var t, scan := InFolder(s), s.passes[pass].scan;
    var w, v := OpenBatch(s.db, scan), OpenBatch(t.db, scan);
    forall k ensures k in v.db.messages <==> k in w.db.labels {
      FolderedIsBoth(s.db.messages, s.db.labels, k);
    }
    ChunkInFolder(w, v, FirstBatch(scan.todo), answers, scan.now, cfg);
    var s' := ApplyBatch(s, pass, answers, cfg);
    forall k ensures k in ApplyBatch(t, pass, answers, cfg).db.messages <==> k in InFolder(s').db.messages {
      FolderedIsBoth(s'.db.messages, s'.db.labels, k);
    }
  }

  // --- every schedule ---------------------------------------------------------------------

  lemma StepScansFromFirst(s: State, e: Event, cfg: Config)
    requires Clean(s, cfg) && Legal(s, [e], cfg) && Schedule(s, [e], cfg) && ScansFromFirst(s)
    ensures ScansFromFirst(Apply(s, e, cfg))
  {
    if e.Search? && !Current(Apply(s, e, cfg)) {
      var row := s.passes[e.pass].row;
      var todo := Todo(row, s.server.validity, s.server.present, e.limit);
      assert ProgressOk(s, s.passes[e.pass], cfg);
      if todo != [] {
        LeftOutIsAbove(Candidates(row, s.server.validity, s.server.present), todo);
        assert SkipsNone(s.server, StartScan(s.db, row, todo, e.now));
      }
    }
  }

  lemma SelectInFolder(s: State, e: Event, cfg: Config)
    requires Labelled(s, cfg) && e.Select? && Enabled(s, e) && Disciplined(s, e)
    requires Clean(Apply(s, e, cfg), cfg) && ScansFromFirst(Apply(s, e, cfg))
    ensures Labelled(Apply(s, e, cfg), cfg)
  {
    var row := s.passes[e.pass].row;
    if FullSync(row, s.server.validity) && row.uidvalidity.Some? {
      UnsyncedIsLabelled(Apply(s, e, cfg), cfg);
    } else {
      StepOk(InFolder(s), e, cfg);
      assert InFolder(Apply(s, e, cfg)) == Apply(InFolder(s), e, cfg);
    }
  }

  lemma StepLabelled(s: State, e: Event, cfg: Config)
    requires Labelled(s, cfg) && Legal(s, [e], cfg) && Schedule(s, [e], cfg)
    ensures Labelled(Apply(s, e, cfg), cfg)
  {
    StepClean(s, e, cfg);
    StepScansFromFirst(s, e, cfg);
    if e.Select? {
      SelectInFolder(s, e, cfg);
    } else {
      StepOk(InFolder(s), e, cfg);
      if e.RunBatch? {
        BatchInFolder(s, e.pass, e.answers, cfg);
        SameArchiveSameAccounts(Apply(InFolder(s), e, cfg), InFolder(Apply(s, e, cfg)).db.messages, cfg);
      }
      assert Invariant(InFolder(Apply(s, e, cfg)), cfg);
    }
  }

  lemma {:induction false} ScheduleLabelled(s: State, es: seq<Event>, cfg: Config)
    requires Labelled(s, cfg) && Legal(s, es, cfg) && Schedule(s, es, cfg)
    ensures Labelled(Run(s, es, cfg), cfg) && Run(s, es, cfg).server == s.server
    decreases |es|
  {
    if es != [] {
      assert [es[0]][1..] == [];
      StepLabelled(s, es[0], cfg);
      ScheduleLabelled(Apply(s, es[0], cfg), es[1..], cfg);
    }
  }

  /** The folder is the mailbox: every message has its label, on a UID that is its
      own, and there is no other label. */
  ghost predicate FolderIsMailbox(db: Db, server: Server, cfg: Config)
    requires Readable(server, cfg)
  {
    && db.labels.Keys == Keys(server, cfg)
    && forall k :: k in db.labels ==> db.labels[k] in server.delivered && KeyAt(server, db.labels[k], cfg) == k
  }

  /** From a numbering nobody has synced, whatever the schedule: past the top with
      nothing given up, the folder is the mailbox. */
  lemma ScheduleLabelsMailbox(s: State, es: seq<Event>, cfg: Config)
    requires Labelled(s, cfg) && Legal(s, es, cfg) && Schedule(s, es, cfg)
    requires PastTheTop(Run(s, es, cfg))
    ensures FolderIsMailbox(Run(s, es, cfg).db, s.server, cfg)
  {
    ScheduleLabelled(s, es, cfg);
    var t := Run(s, es, cfg);
    forall k | k in Keys(t.server, cfg) ensures k in t.db.labels {
      var u :| u in t.server.delivered && KeyAt(t.server, u, cfg) == k;
      assert Accounted(InFolder(t).db, t.server, t.ledger, u, cfg);
      FolderedIsBoth(t.db.messages, t.db.labels, k);
    }
    assert t.db.labels.Keys == Keys(t.server, cfg);
  }

  // --- a changed UIDVALIDITY -----------------------------------------------------------------

  ghost function Unlabelled(s: State): State {
    s.(db := s.db.(labels := map[]))
  }

  /** Labels of an older numbering are gone with the SELECT that sees the change,
      whatever they were: from there on the folder is that of this numbering. */
  lemma SelectDropsOldLabels(s: State, pass: PassId, names: bool, cfg: Config)
    requires Labelled(Unlabelled(s), cfg) && Enabled(s, Select(pass, names)) && Disciplined(s, Select(pass, names))
    requires var row := s.passes[pass].row; row.uidvalidity.Some? && row.uidvalidity.value != s.server.validity
    ensures Labelled(Apply(s, Select(pass, names), cfg), cfg)
  {
    var e, t := Select(pass, names), Unlabelled(s);
    assert Apply(t, e, cfg) == Apply(s, e, cfg);
    assert [e][1..] == [] && Legal(t, [e], cfg) && Schedule(t, [e], cfg);
    StepLabelled(t, e, cfg);
  }

  /** One uninterrupted, unlimited pass makes the folder the mailbox, and clears
      what labels there are of an older numbering. */
  lemma UninterruptedPassLabelsMailbox(s: State, names: bool, session: Session, cfg: Config)
    requires Labelled(s, cfg) || (Labelled(Unlabelled(s), cfg) && s.db.uidvalidity.Some? && !Current(s))
    requires Uninterrupted(s.server, PassTodo(s, None), session)
    requires forall u :: u in s.server.delivered && Tombstoned(s.db.holds, u) ==> StoredUidnext(StoredRow(s.db)) <= u
    ensures var r := Pass(s.db, StoredRow(s.db), StatusOf(s.server, s.server, names), None, session, cfg);
            FolderIsMailbox(r.db, s.server, cfg)
  {
    if Labelled(s, cfg) {
      LabelledPassLabels(s, names, session, cfg);
    } else {
      var t := Unlabelled(s);
      assert SelectDb(s.db, StoredRow(s.db), s.server.validity) == SelectDb(t.db, StoredRow(t.db), t.server.validity);
      LabelledPassLabels(t, names, session, cfg);
    }
  }

  lemma LabelledPassLabels(s: State, names: bool, session: Session, cfg: Config)
    requires Labelled(s, cfg) && Uninterrupted(s.server, PassTodo(s, None), session)
    requires forall u :: u in s.server.delivered && Tombstoned(s.db.holds, u) ==> StoredUidnext(StoredRow(s.db)) <= u
    ensures var r := Pass(s.db, StoredRow(s.db), StatusOf(s.server, s.server, names), None, session, cfg);
            FolderIsMailbox(r.db, s.server, cfg)
  {
    var r := Pass(s.db, StoredRow(s.db), StatusOf(s.server, s.server, names), None, session, cfg);
    UninterruptedPassCompletes(s, names, session, cfg);
    TodoAboveRow(InFolder(s), PassTodo(s, None), cfg);
    forall k | k in Keys(s.server, cfg) ensures k in r.db.labels {
      var u :| u in s.server.delivered && KeyAt(s.server, u, cfg) == k;
      if u !in PassTodo(s, None) {
        FolderedIsBoth(s.db.messages, s.db.labels, k);
      }
    }
    assert r.db.labels.Keys == Keys(s.server, cfg);
  }
}
