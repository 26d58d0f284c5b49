/** With a fixed mailbox of parsable messages, every schedule that gets past the
    top UID with nothing given up archives the same messages, each once. */
module SyncConfluence {
  import opened Prelude
  import opened Uids
  import opened FetchRetry
  import opened Sync
  import opened SyncRun
  import opened SyncPass

  ghost predicate Readable(server: Server, cfg: Config) {
    && server.present == server.delivered.Keys
    && forall u :: u in server.delivered ==> server.delivered[u] != [] && KeyOf(cfg, server.delivered[u]).Some?
  }

  ghost function KeyAt(server: Server, u: Uid, cfg: Config): Key
    requires Readable(server, cfg) && u in server.delivered
  {
    KeyOf(cfg, server.delivered[u]).value
  }

  /** Two messages are one row exactly when they have the same Message-ID or, both
      without one, the same bytes. */
  lemma SameRowExactly(cfg: Config, a: Bytes, b: Bytes)
    requires cfg.parse(a).Some? && cfg.parse(b).Some?
    ensures KeyOf(cfg, a).Some? && KeyOf(cfg, b).Some?
    ensures var id, other := cfg.parse(a).value.messageId, cfg.parse(b).value.messageId;
            KeyOf(cfg, a) == KeyOf(cfg, b) <==> id == other && (id.None? ==> a == b)
  {
  }

  ghost function Keys(server: Server, cfg: Config): set<Key>
    requires Readable(server, cfg)
  {
    set u | u in server.delivered :: KeyAt(server, u, cfg)
  }

  /** A body, or a fetch that fails for now and is put on record. Of the writes
      that store a body, only contention makes one fail. */
  ghost predicate Orderly(a: Answer) {
    if HasBody(a) then !a.storing.OtherError? else a.attemptOk && a.gaveUpOk
  }

  /** Crashes, aborts, truncated passes, failing fetches, restarts and rewinds, in
      any order. */
  ghost predicate Schedule(s: State, es: seq<Event>, cfg: Config)
    requires Legal(s, es, cfg)
    decreases |es|
  {
    es != [] ==>
      && Disciplined(s, es[0])
      && (match es[0]
          case Open(_) => true
          case Select(_, _) => true
          case Search(_, _, _) => true
          case Die(_) => true
          case RunBatch(pass, answers) =>
            forall u :: u in FirstBatch(s.passes[pass].scan.todo) ==> Orderly(answers(u))
          case Commit(foreign) => foreign.Rewind?
          case _ => false)
      && Schedule(Apply(s, es[0], cfg), es[1..], cfg)
  }

  /** Every label is of an archived message and names the UID of one with its key,
      so no two messages ever share a UID: UNIQUE (mailbox_id, uid) cannot be violated. */
  ghost predicate Tidy(db: Db, server: Server, cfg: Config)
    requires Readable(server, cfg)
  {
    && db.failed == map[]
    && NoDuplicates(db.messages)
    && (forall k :: k in db.messages ==> k in Keys(server, cfg))
    && (forall k :: k in db.labels ==>
          k in db.messages && db.labels[k] in server.delivered && KeyAt(server, db.labels[k], cfg) == k)
  }

  ghost predicate Clean(s: State, cfg: Config) {
    && Invariant(s, cfg) && Readable(s.server, cfg)
    && s.ledger == Ledger({}, {}, {})
    && Tidy(s.db, s.server, cfg)
  }

  ghost predicate TidyWork(w: Work, server: Server, cfg: Config)
    requires Readable(server, cfg)
  {
    Tidy(w.db, server, cfg) && w.log == EMPTY_LOG
  }

  lemma StoreTidy(w: Work, uid: Uid, a: Answer, server: Server, now: Time, cfg: Config)
    requires Readable(server, cfg) && TidyWork(w, server, cfg)
    requires uid in server.delivered && Truthful(server, uid, a) && Orderly(a)
    requires ProcessUid(w, uid, a, now, cfg).Some?
    ensures TidyWork(ProcessUid(w, uid, a, now, cfg).value, server, cfg)
  {
    if HasBody(a) {
      var key := KeyAt(server, uid, cfg);
      assert !LabelConflict(w.db.labels, key, uid);
      assert key in Keys(server, cfg);
    } else {
      assert a.present;
    }
  }

  lemma {:induction false} ChunkTidy(w: Work, chunk: seq<Uid>, answers: Uid -> Answer,
                                     server: Server, now: Time, cfg: Config)
    requires Readable(server, cfg) && TidyWork(w, server, cfg)
    requires forall u :: u in chunk ==>
               u in server.delivered && Truthful(server, u, answers(u)) && Orderly(answers(u))
    requires ProcessChunk(w, chunk, answers, now, cfg).Some?
    ensures TidyWork(ProcessChunk(w, chunk, answers, now, cfg).value, server, cfg)
    decreases |chunk|
  {
    if chunk != [] {
      assert chunk[0] in chunk;
      StoreTidy(w, chunk[0], answers(chunk[0]), server, now, cfg);
      var w1 := ProcessUid(w, chunk[0], answers(chunk[0]), now, cfg).value;
      ChunkTidy(w1, chunk[1..], answers, server, now, cfg);
    }
  }

  lemma BatchTidy(s: State, pass: PassId, answers: Uid -> Answer, cfg: Config)
    requires Clean(s, cfg) && Enabled(s, RunBatch(pass, answers))
    requires forall u :: u in FirstBatch(s.passes[pass].scan.todo) ==> Orderly(answers(u))
    ensures var t := ApplyBatch(s, pass, answers, cfg);
            Tidy(t.db, t.server, cfg) && t.ledger == s.ledger
  {
    var scan := s.passes[pass].scan;
    var chunk := FirstBatch(scan.todo);
    assert ProgressOk(s, s.passes[pass], cfg);
    assert forall u :: u in chunk ==> u in scan.todo;
    if ProcessChunk(OpenBatch(s.db, scan), chunk, answers, scan.now, cfg).Some? {
      ChunkTidy(OpenBatch(s.db, scan), chunk, answers, s.server, scan.now, cfg);
      assert Learn(s.ledger, EMPTY_LOG) == s.ledger;
    }
  }

  lemma StepClean(s: State, e: Event, cfg: Config)
    requires Clean(s, cfg) && Legal(s, [e], cfg) && Schedule(s, [e], cfg)
    ensures Clean(Apply(s, e, cfg), cfg)
  {
    StepOk(s, e, cfg);
    match e
    case RunBatch(pass, answers) => BatchTidy(s, pass, answers, cfg);
    case Search(pass, limit, now) =>
      assert Unlisted(s.server, s.passes[pass].row) == {};
    case Commit(f) =>
      assert Apply(s, e, cfg).ledger == s.ledger;
    case _ =>
  }

  lemma {:induction false} ScheduleClean(s: State, es: seq<Event>, cfg: Config)
    requires Clean(s, cfg) && Legal(s, es, cfg) && Schedule(s, es, cfg)
    ensures Clean(Run(s, es, cfg), cfg) && Run(s, es, cfg).server == s.server
    decreases |es|
  {
    if es != [] {
      assert [es[0]][1..] == [];
      StepClean(s, es[0], cfg);
      ScheduleClean(Apply(s, es[0], cfg), es[1..], cfg);
    }
  }

  function PassTodo(s: State, limit: Option<int>): seq<Uid> {
    Todo(StoredRow(s.db), s.server.validity, s.server.present, limit)
  }

  /** The watermark is above every UID and, if there is any, of this numbering. */
  ghost predicate PastTheTop(s: State) {
    && s.db.uidnext.Some? && (s.server.delivered != map[] ==> Current(s))
    && forall u :: u in s.server.delivered ==> u < s.db.uidnext.value && !Tombstoned(s.db.holds, u)
  }

  /** Past the top with nothing given up, the archive is the mailbox: every key,
      each in one row. */
  lemma ScheduleArchivesMailbox(s: State, es: seq<Event>, cfg: Config)
    requires Clean(s, cfg) && Legal(s, es, cfg) && Schedule(s, es, cfg)
    requires PastTheTop(Run(s, es, cfg))
    ensures multiset(Run(s, es, cfg).db.messages) == multiset(Keys(s.server, cfg))
  {
    ScheduleClean(s, es, cfg);
    var t := Run(s, es, cfg);
    forall k | k in Keys(t.server, cfg) ensures k in t.db.messages {
      var u :| u in t.server.delivered && KeyAt(t.server, u, cfg) == k;
      assert Accounted(t.db, t.server, t.ledger, u, cfg);
    }
    RowsAreKeys(t.db.messages, Keys(t.server, cfg));
  }

  lemma {:induction false} RowsAreKeys<T>(rows: seq<T>, keys: set<T>)
    requires NoDuplicates(rows) && forall k :: k in rows <==> k in keys
    ensures multiset(rows) == multiset(keys)
    decreases |rows|
  {
    if rows != [] {
      var n := |rows| - 1;
      assert rows == rows[..n] + [rows[n]];
      assert forall k :: k in rows[..n] <==> k in keys - {rows[n]};
      RowsAreKeys(rows[..n], keys - {rows[n]});
      assert multiset(keys) == multiset(keys - {rows[n]}) + multiset{rows[n]};
    }
  }

  /** Two schedules of the same mailbox cannot end with different archives. */
  lemma Confluence(s: State, es: seq<Event>, fs: seq<Event>, cfg: Config)
    requires Clean(s, cfg)
    requires Legal(s, es, cfg) && Schedule(s, es, cfg) && PastTheTop(Run(s, es, cfg))
    requires Legal(s, fs, cfg) && Schedule(s, fs, cfg) && PastTheTop(Run(s, fs, cfg))
    ensures multiset(Run(s, es, cfg).db.messages) == multiset(Run(s, fs, cfg).db.messages)
  {
    ScheduleArchivesMailbox(s, es, cfg);
    ScheduleArchivesMailbox(s, fs, cfg);
  }

  /** Scanning archived messages again, after a rewind say, inserts nothing. */
  lemma {:induction false} RescanInsertsNothing(w: Work, chunk: seq<Uid>, answers: Uid -> Answer,
                                                now: Time, cfg: Config)
    requires forall u :: u in chunk && HasBody(answers(u)) && KeyOf(cfg, answers(u).body.value).Some?
               ==> KeyOf(cfg, answers(u).body.value).value in w.db.messages
    requires ProcessChunk(w, chunk, answers, now, cfg).Some?
    ensures var w' := ProcessChunk(w, chunk, answers, now, cfg).value;
            w'.db.messages == w.db.messages && w'.inserted == w.inserted
    decreases |chunk|
  {
    if chunk != [] {
      assert chunk[0] in chunk;
      var w1 := ProcessUid(w, chunk[0], answers(chunk[0]), now, cfg).value;
      assert w1.db.messages == w.db.messages && w1.inserted == w.inserted;
      RescanInsertsNothing(w1, chunk[1..], answers, now, cfg);
    }
  }

  /** `inserted` counts what was appended to the archive. */
  ghost predicate Appended(before: seq<Key>, after: seq<Key>, inserted: int) {
    before <= after && |after| == |before| + inserted
  }

  lemma {:induction false} ChunkInserts(w: Work, chunk: seq<Uid>, answers: Uid -> Answer, now: Time, cfg: Config)
    requires ProcessChunk(w, chunk, answers, now, cfg).Some?
    ensures var w' := ProcessChunk(w, chunk, answers, now, cfg).value;
            Appended(w.db.messages, w'.db.messages, w'.inserted - w.inserted)
    decreases |chunk|
  {
    if chunk != [] {
      var w1 := ProcessUid(w, chunk[0], answers(chunk[0]), now, cfg).value;
      assert Appended(w.db.messages, w1.db.messages, w1.inserted - w.inserted);
      ChunkInserts(w1, chunk[1..], answers, now, cfg);
    }
  }

  lemma {:induction false} BatchesInsert(db: Db, log: Log, inserted: nat, scan: Scan, i: nat, validity: nat,
                                         session: Session, cfg: Config)
    requires forall j, d :: session.others(j, d) == d
    ensures var r := Batches(db, log, inserted, scan, i, validity, session, cfg);
            Appended(db.messages, r.db.messages, r.inserted - inserted)
    decreases |scan.todo|
  {
    if scan.todo != [] && session.crashAt != Some(i) {
      assert session.others(i, db) == db;
      match BatchStep(db, scan, session.answers, validity, cfg)
      case RolledBack =>
      case Committed(db', scan', log', n) =>
        ChunkInserts(OpenBatch(db, scan), FirstBatch(scan.todo), session.answers, scan.now, cfg);
        BatchesInsert(db', Log(log.expunged + log'.expunged, log.errors + log'.errors), inserted + n, scan', i + 1,
                      validity, session, cfg);
    }
  }

  /** However a pass ends, the count it reports is that of the rows it has added. */
  lemma InsertedCountsNewRows(db: Db, row: MailboxRow, status: Selected, limit: Option<int>, session: Session,
                              cfg: Config)
    requires forall j, d :: session.others(j, d) == d
    ensures var r := Pass(db, row, status, limit, session, cfg);
            Appended(db.messages, r.db.messages, r.inserted)
  {
    var db' := SelectDb(db, row, status.validity);
    assert session.others(0, db') == db';
    var todo := Todo(row, status.validity, status.present, limit);
    if session.crashAt != Some(0) && todo != [] {
      BatchesInsert(db', EMPTY_LOG, 0, StartScan(db', row, todo, session.now), 1, status.validity, session, cfg);
    }
  }

  // --- the uninterrupted pass -------------------------------------------------------------

  /** Nothing goes wrong and nobody interferes. */
  ghost predicate Uninterrupted(server: Server, uids: seq<Uid>, session: Session) {
    && session.crashAt.None? && (forall i, db :: session.others(i, db) == db)
    && forall u :: u in uids ==>
         Truthful(server, u, session.answers(u)) && HasBody(session.answers(u))
         && session.answers(u).storing.NoFault?
  }

  lemma {:induction false} ChunkCompletes(w: Work, chunk: seq<Uid>, answers: Uid -> Answer,
                                          server: Server, now: Time, cfg: Config)
    requires Readable(server, cfg) && TidyWork(w, server, cfg) && Ascending(chunk)
    requires forall u :: u in chunk ==>
               && u in server.delivered && Truthful(server, u, answers(u))
               && HasBody(answers(u)) && answers(u).storing.NoFault?
    requires forall u :: u in chunk ==> w.highestSeen <= u
    ensures var r := ProcessChunk(w, chunk, answers, now, cfg);
            && r.Some? && r.value.holdAt == w.holdAt
            && TidyWork(r.value, server, cfg)
            && (forall k :: k in w.db.messages ==> k in r.value.db.messages)
            && w.db.labels.Keys <= r.value.db.labels.Keys
            && (forall u :: u in chunk ==>
                  KeyAt(server, u, cfg) in r.value.db.messages && KeyAt(server, u, cfg) in r.value.db.labels)
            && r.value.highestSeen == if chunk == [] then w.highestSeen else chunk[|chunk| - 1]
    decreases |chunk|
  {
    if chunk != [] {
      var first := chunk[0];
      assert first in chunk;
      var key := KeyAt(server, first, cfg);
      assert !LabelConflict(w.db.labels, key, first);
      StoreTidy(w, first, answers(first), server, now, cfg);
      var w1 := ProcessUid(w, first, answers(first), now, cfg).value;
      assert forall u :: u in chunk[1..] ==> u in chunk && first < u;
      ChunkCompletes(w1, chunk[1..], answers, server, now, cfg);
    }
  }

  ghost predicate ReadyToScan(db: Db, scan: Scan, server: Server, session: Session, cfg: Config) {
    && Readable(server, cfg) && Tidy(db, server, cfg) && scan.holdAt.None?
    && Ascending(scan.todo)
    && (forall u :: u in scan.todo ==> u in server.delivered && scan.highestSeen <= u)
    && Uninterrupted(server, scan.todo, session)
  }

  /** `db'` is tidy, with everything `db` had and every message of `uids`, each in
      the archive and labelled in this mailbox. */
  ghost predicate Gained(db: Db, uids: seq<Uid>, db': Db, server: Server, cfg: Config)
    requires Readable(server, cfg)
  {
    && Tidy(db', server, cfg)
    && (forall k :: k in db.messages ==> k in db'.messages)
    && db.labels.Keys <= db'.labels.Keys
    && (forall u :: u in uids && u in server.delivered ==>
          KeyAt(server, u, cfg) in db'.messages && KeyAt(server, u, cfg) in db'.labels)
  }

  lemma OneBatchCompletes(db: Db, scan: Scan, server: Server, session: Session, cfg: Config)
    requires ReadyToScan(db, scan, server, session, cfg) && scan.todo != []
    ensures var b := BatchStep(db, scan, session.answers, server.validity, cfg);
            var n := |FirstBatch(scan.todo)|;
            && b.Committed? && b.scan.todo == scan.todo[n..] && b.scan.holdAt.None?
            && b.scan.highestSeen == scan.todo[n - 1]
            && b.db.uidnext == Some(scan.todo[n - 1] + 1)
            && Gained(db, scan.todo[..n], b.db, server, cfg)
  {
    var chunk := FirstBatch(scan.todo);
    assert forall u :: u in chunk ==> u in scan.todo;
    ChunkCompletes(OpenBatch(db, scan), chunk, session.answers, server, scan.now, cfg);
  }

  /** One iteration of an uninterrupted pass. */
  lemma NextBatch(db: Db, log: Log, inserted: nat, scan: Scan, i: nat, server: Server,
                  session: Session, cfg: Config)
    returns (n: nat, db': Db, log': Log, inserted': nat, scan': Scan)
    requires ReadyToScan(db, scan, server, session, cfg) && scan.todo != []
    ensures 0 < n <= |scan.todo| && scan'.todo == scan.todo[n..]
    ensures ReadyToScan(db', scan', server, session, cfg)
    ensures db'.uidnext == Some(scan.todo[n - 1] + 1)
    ensures Gained(db, scan.todo[..n], db', server, cfg)
    ensures Batches(db, log, inserted, scan, i, server.validity, session, cfg)
            == Batches(db', log', inserted', scan', i + 1, server.validity, session, cfg)
  {
    n := |FirstBatch(scan.todo)|;
    OneBatchCompletes(db, scan, server, session, cfg);
    var b := BatchStep(db, scan, session.answers, server.validity, cfg);
    db', scan' := b.db, b.scan;
    log' := Log(log.expunged + b.log.expunged, log.errors + b.log.errors);
    inserted' := inserted + b.inserted;
    assert session.others(i, db) == db;
    OneIteration(db, log, inserted, scan, i, server.validity, session, cfg);
    StaysReady(db, db', scan, scan', n, server, session, cfg);
  }

  lemma StaysReady(db: Db, db': Db, scan: Scan, scan': Scan, n: nat, server: Server, session: Session, cfg: Config)
    requires ReadyToScan(db, scan, server, session, cfg) && 0 < n <= |scan.todo|
    requires scan'.todo == scan.todo[n..] && scan'.holdAt.None? && scan'.highestSeen == scan.todo[n - 1]
    requires Tidy(db', server, cfg)
    ensures ReadyToScan(db', scan', server, session, cfg)
  {
    assert forall u :: u in scan'.todo ==> u in scan.todo;
  }

  /** The pass ran to its end, with every message of `todo`. */
  ghost predicate Complete(db: Db, todo: seq<Uid>, r: PassResult, server: Server, cfg: Config)
    requires Readable(server, cfg)
  {
    && r.end.Finished? && Gained(db, todo, r.db, server, cfg)
    && (todo != [] ==> r.db.uidnext == Some(todo[|todo| - 1] + 1))
  }

  lemma {:induction false} BatchesComplete(db: Db, log: Log, inserted: nat, scan: Scan, i: nat,
                                           server: Server, session: Session, cfg: Config)
    requires ReadyToScan(db, scan, server, session, cfg) && scan.todo != []
    ensures Complete(db, scan.todo, Batches(db, log, inserted, scan, i, server.validity, session, cfg), server, cfg)
    decreases |scan.todo|
  {
    var n, db', log', inserted', scan' := NextBatch(db, log, inserted, scan, i, server, session, cfg);
    var r := Batches(db', log', inserted', scan', i + 1, server.validity, session, cfg);
    if scan'.todo == [] {
      CompleteAtOnce(db, scan.todo, n, db', r, server, cfg);
    } else {
      BatchesComplete(db', log', inserted', scan', i + 1, server, session, cfg);
      CompleteInTurn(db, scan.todo, n, db', r, server, cfg);
    }
  }

  lemma CompleteAtOnce(db: Db, todo: seq<Uid>, n: nat, db': Db, r: PassResult, server: Server, cfg: Config)
    requires Readable(server, cfg) && 0 < n <= |todo| && todo[n..] == []
    requires Gained(db, todo[..n], db', server, cfg) && db'.uidnext == Some(todo[n - 1] + 1)
    requires r.db == db' && r.end.Finished?
    ensures Complete(db, todo, r, server, cfg)
  {
    assert n == |todo|;
    assert todo[..n] == todo;
  }

  lemma CompleteInTurn(db: Db, todo: seq<Uid>, n: nat, db': Db, r: PassResult, server: Server, cfg: Config)
    requires Readable(server, cfg) && n <= |todo| && todo[n..] != []
    requires Gained(db, todo[..n], db', server, cfg) && Complete(db', todo[n..], r, server, cfg)
    ensures Complete(db, todo, r, server, cfg)
  {
    assert forall u :: u in todo ==> u in todo[..n] || u in todo[n..];
  }

  /** One uninterrupted, unlimited pass gets past the top, and leaves the archive
      every schedule that gets there agrees on. What was given up earlier it
      fetches too, once a rewind has put the watermark at or below it. */
  lemma UninterruptedPassArchivesMailbox(s: State, names: bool, session: Session, cfg: Config)
    requires Clean(s, cfg) && Uninterrupted(s.server, PassTodo(s, None), session)
    requires forall u :: u in s.server.delivered && Tombstoned(s.db.holds, u) ==> StoredUidnext(StoredRow(s.db)) <= u
    ensures var r := Pass(s.db, StoredRow(s.db), StatusOf(s.server, s.server, names), None, session, cfg);
            && r.end.Finished? && r.db.uidnext.Some?
            && (forall u :: u in s.server.delivered ==> u < r.db.uidnext.value)
            && multiset(r.db.messages) == multiset(Keys(s.server, cfg))
            && forall u :: u in PassTodo(s, None) && u in s.server.delivered ==> KeyAt(s.server, u, cfg) in r.db.labels
  {
    var r := Pass(s.db, StoredRow(s.db), StatusOf(s.server, s.server, names), None, session, cfg);
    UninterruptedPassCompletes(s, names, session, cfg);
    TodoAboveRow(s, PassTodo(s, None), cfg);
    forall k | k in Keys(s.server, cfg) ensures k in r.db.messages {
      var u :| u in s.server.delivered && KeyAt(s.server, u, cfg) == k;
      if u !in PassTodo(s, None) {
        assert Accounted(s.db, s.server, s.ledger, u, cfg);
      }
    }
    RowsAreKeys(r.db.messages, Keys(s.server, cfg));
  }

  lemma PassOverCompletes(db: Db, row: MailboxRow, names: bool, todo: seq<Uid>, server: Server,
                          session: Session, cfg: Config)
    requires ReadyToScan(db, StartScan(db, row, todo, session.now), server, session, cfg)
    ensures var r := PassOver(db, row, StatusOf(server, server, names), todo, session, cfg);
            && r.end.Finished? && Gained(db, todo, r.db, server, cfg)
            && (todo != [] ==> r.db.uidnext == Some(todo[|todo| - 1] + 1))
            && (todo == [] ==> r.db == NothingNew(db, row, server.validity, StatusOf(server, server, names).uidnext))
  {
    if todo != [] {
      BatchesComplete(db, EMPTY_LOG, 0, StartScan(db, row, todo, session.now), 1, server, session, cfg);
    }
  }

  lemma UninterruptedPassCompletes(s: State, names: bool, session: Session, cfg: Config)
    requires Clean(s, cfg) && Uninterrupted(s.server, PassTodo(s, None), session)
    ensures var r := Pass(s.db, StoredRow(s.db), StatusOf(s.server, s.server, names), None, session, cfg);
            && r.end.Finished?
            && Gained(SelectDb(s.db, StoredRow(s.db), s.server.validity), PassTodo(s, None), r.db, s.server, cfg)
            && r.db.uidnext.Some?
            && (forall u :: u in s.server.delivered ==> u < r.db.uidnext.value)
  {
    var row := StoredRow(s.db);
    var db := SelectDb(s.db, row, s.server.validity);
    var todo := PassTodo(s, None);
    TodoAboveRow(s, todo, cfg);
    PassOverCompletes(db, row, names, todo, s.server, session, cfg);
    if todo == [] {
      NothingNewIsPast(s, db, row, names, cfg);
    } else {
      LastIsTop(todo);
      assert todo[|todo| - 1] in todo;
    }
  }

  lemma LastIsTop(s: seq<Uid>)
    requires Ascending(s) && s != []
    ensures forall u :: u in s ==> u <= s[|s| - 1]
  {
  }

  /** With nothing to fetch, either watermark is past every message. */
  lemma NothingNewIsPast(s: State, db: Db, row: MailboxRow, names: bool, cfg: Config)
    requires Clean(s, cfg) && row == StoredRow(s.db) && PassTodo(s, None) == []
    ensures var w := NothingNew(db, row, s.server.validity, StatusOf(s.server, s.server, names).uidnext).uidnext;
            w.Some? && forall u :: u in s.server.delivered ==> u < w.value
  {
    TodoAboveRow(s, [], cfg);
  }

  lemma TodoAboveRow(s: State, todo: seq<Uid>, cfg: Config)
    requires Invariant(s, cfg) && Readable(s.server, cfg) && todo == PassTodo(s, None)
    ensures Ascending(todo)
    ensures forall u :: u in todo ==> u in s.server.delivered && StoredUidnext(StoredRow(s.db)) <= u + 1
    ensures forall u :: u in s.server.delivered && u !in todo
              ==> u < StoredUidnext(StoredRow(s.db)) && Accounted(s.db, s.server, s.ledger, u, cfg)
  {
    assert todo == Candidates(StoredRow(s.db), s.server.validity, s.server.present);
    assert RowOk(s, StoredRow(s.db), cfg);
  }
}
