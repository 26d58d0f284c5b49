/** What a finished pass tells the operator: which UIDs its log names, and for what. */
module SyncLog {
  import opened Prelude
  import opened Uids
  import opened FetchRetry
  import opened Sync

  /** No body for a message the server says it has: the server empties bodies. */
  predicate IsEmptied(a: Answer) {
    !HasBody(a) && a.present
  }

  /** Named as expunged: no body and no message, while the server is not yet known
      to empty bodies. From then on nothing is probed. */
  ghost predicate IsExpunged(u: Uid, uids: seq<Uid>, answers: Uid -> Answer) {
    && u in uids && !HasBody(answers(u)) && !answers(u).present
    && forall v :: v in uids && IsEmptied(answers(v)) ==> u < v
  }

  /** A record about the UID could not be written. */
  predicate IsUnrecorded(a: Answer) {
    if HasBody(a) then a.logging.OtherError? else !a.attemptOk || !a.gaveUpOk
  }

  /** The only record there would have been: of the hold, or of a body that cannot
      be parsed. */
  predicate IsMissed(a: Answer, cfg: Config) {
    if HasBody(a) then KeyOf(cfg, a.body.value).None? && a.logging.OtherError? else !a.attemptOk
  }

  /** What working through `uids` adds to a log, where `emptying` is what is known
      of the server before. */
  ghost predicate IsLogged(before: Log, after: Log, emptying: bool, uids: seq<Uid>, answers: Uid -> Answer,
                           cfg: Config) {
    && (forall u :: u in after.expunged <==>
          u in before.expunged || (!emptying && IsExpunged(u, uids, answers)))
    && (forall u :: u in before.errors ==> u in after.errors)
    && (forall u :: u in after.errors ==> u in before.errors || (u in uids && IsUnrecorded(answers(u))))
    && (forall u :: u in uids && IsMissed(answers(u), cfg) ==>
          u in after.errors || (!emptying && IsExpunged(u, uids, answers)))
  }

  ghost predicate KnownEmptying(emptying: bool, uids: seq<Uid>, answers: Uid -> Answer) {
    emptying || exists v :: v in uids && IsEmptied(answers(v))
  }

  lemma UidLog(w: Work, uid: Uid, answers: Uid -> Answer, now: Time, cfg: Config)
    requires ProcessUid(w, uid, answers(uid), now, cfg).Some?
    ensures var r := ProcessUid(w, uid, answers(uid), now, cfg).value;
            && IsLogged(w.log, r.log, w.emptying, [uid], answers, cfg)
            && (r.emptying <==> KnownEmptying(w.emptying, [uid], answers))
  {
    assert uid in [uid];
  }

  /** One stretch of UIDs, then the ones above. */
  lemma InTurn(first: Log, mid: Log, last: Log, emptying: bool, a: seq<Uid>, b: seq<Uid>, answers: Uid -> Answer,
               cfg: Config)
    requires Ascending(a + b)
    requires IsLogged(first, mid, emptying, a, answers, cfg)
    requires IsLogged(mid, last, KnownEmptying(emptying, a, answers), b, answers, cfg)
    ensures IsLogged(first, last, emptying, a + b, answers, cfg)
    ensures KnownEmptying(emptying, a + b, answers) <==> KnownEmptying(KnownEmptying(emptying, a, answers), b, answers)
  {
    assert forall u :: u in a + b <==> u in a || u in b;
    forall u, v | u in a && v in b ensures u < v {
      var i, j :| 0 <= i < |a| && a[i] == u && 0 <= j < |b| && b[j] == v;
      assert (a + b)[i] == u && (a + b)[|a| + j] == v;
    }
    forall u ensures !emptying && IsExpunged(u, a + b, answers) <==>
                     (!emptying && IsExpunged(u, a, answers))
                     || (!KnownEmptying(emptying, a, answers) && IsExpunged(u, b, answers)) {
    }
  }

  lemma {:induction false} ChunkLog(w: Work, chunk: seq<Uid>, answers: Uid -> Answer, now: Time, cfg: Config)
    requires Ascending(chunk) && ProcessChunk(w, chunk, answers, now, cfg).Some?
    ensures var r := ProcessChunk(w, chunk, answers, now, cfg).value;
            && IsLogged(w.log, r.log, w.emptying, chunk, answers, cfg)
            && (r.emptying <==> KnownEmptying(w.emptying, chunk, answers))
    decreases |chunk|
  {
    if chunk != [] {
      UidLog(w, chunk[0], answers, now, cfg);
      var mid := ProcessUid(w, chunk[0], answers(chunk[0]), now, cfg).value;
      ChunkLog(mid, chunk[1..], answers, now, cfg);
      assert chunk == [chunk[0]] + chunk[1..];
      InTurn(w.log, mid.log, ProcessChunk(w, chunk, answers, now, cfg).value.log, w.emptying, [chunk[0]], chunk[1..],
             answers, cfg);
    }
  }

  /** A batch logs on its own; the pass puts the logs together. */
  lemma Joins(before: Log, own: Log, emptying: bool, uids: seq<Uid>, answers: Uid -> Answer, cfg: Config)
    requires IsLogged(EMPTY_LOG, own, emptying, uids, answers, cfg)
    ensures IsLogged(before, Log(before.expunged + own.expunged, before.errors + own.errors), emptying, uids, answers,
                     cfg)
  {
  }

  lemma BatchLog(db: Db, log: Log, scan: Scan, answers: Uid -> Answer, validity: nat, cfg: Config)
    requires Ascending(scan.todo) && BatchStep(db, scan, answers, validity, cfg).Committed?
    ensures var b, chunk := BatchStep(db, scan, answers, validity, cfg), FirstBatch(scan.todo);
            && IsLogged(log, Log(log.expunged + b.log.expunged, log.errors + b.log.errors), scan.emptying, chunk,
                        answers, cfg)
            && (b.scan.emptying <==> KnownEmptying(scan.emptying, chunk, answers))
  {
    ChunkLog(OpenBatch(db, scan), FirstBatch(scan.todo), answers, scan.now, cfg);
    Joins(log, BatchStep(db, scan, answers, validity, cfg).log, scan.emptying, FirstBatch(scan.todo), answers, cfg);
  }

  lemma {:induction false} BatchesLog(db: Db, log: Log, inserted: nat, scan: Scan, i: nat, validity: nat,
                                      session: Session, cfg: Config)
    requires Ascending(scan.todo)
    requires Batches(db, log, inserted, scan, i, validity, session, cfg).end.Finished?
    ensures IsLogged(log, Batches(db, log, inserted, scan, i, validity, session, cfg).log, scan.emptying, scan.todo,
                     session.answers, cfg)
    decreases |scan.todo|
  {
    if scan.todo != [] {
      var found := session.others(i, db);
      var chunk, b := FirstBatch(scan.todo), BatchStep(found, scan, session.answers, validity, cfg);
      OneIteration(db, log, inserted, scan, i, validity, session, cfg);
      BatchLog(found, log, scan, session.answers, validity, cfg);
      var mid := Log(log.expunged + b.log.expunged, log.errors + b.log.errors);
      BatchesLog(b.db, mid, inserted + b.inserted, b.scan, i + 1, validity, session, cfg);
      assert scan.todo == chunk + b.scan.todo;
      InTurn(log, mid, Batches(db, log, inserted, scan, i, validity, session, cfg).log, scan.emptying, chunk,
             b.scan.todo, session.answers, cfg);
    }
  }

  /** A finished pass, whatever others committed meanwhile: named as expunged is
      exactly what the server had neither body nor message for before it was first
      seen to empty a body; named by an error is nothing but what a record could not
      be written about, and everything whose only record that was. */
  lemma LogNamesExactly(db: Db, row: MailboxRow, status: Selected, limit: Option<int>, session: Session, cfg: Config)
    requires Pass(db, row, status, limit, session, cfg).end.Finished?
    ensures var todo, log := Todo(row, status.validity, status.present, limit),
                             Pass(db, row, status, limit, session, cfg).log;
            && (forall u :: u in log.expunged <==> IsExpunged(u, todo, session.answers))
            && (forall u :: u in log.errors ==> u in todo && IsUnrecorded(session.answers(u)))
            && (forall u :: u in todo && IsMissed(session.answers(u), cfg) ==> u in log.errors + log.expunged)
  {
    var todo := Todo(row, status.validity, status.present, limit);
    if todo != [] {
      var db1 := session.others(0, SelectDb(db, row, status.validity));
      BatchesLog(db1, EMPTY_LOG, 0, StartScan(db1, row, todo, session.now), 1, status.validity, session, cfg);
    }
  }
}
