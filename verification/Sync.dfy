/** `sync_mailbox`: one pass over one mailbox, batch by batch.

    The tables are those of one mailbox and its account. What the IMAP server,
    the database driver and the clock contribute to a pass is an input: which
    UIDs a SEARCH lists, what a FETCH returns, which write fails and how. */
module Sync {
  import opened Prelude
  import opened Uids
  import opened FetchRetry

  const BATCH_SIZE: nat := 50

  // --- what is stored ---------------------------------------------------------

  datatype Parsed = Parsed(messageId: Option<string>)

  /** The per-account dedup key. A raw SHA-256 stands for the bytes it digests. */
  datatype Key = ByMessageId(id: string) | ByRaw(raw: Bytes)

  /** `parse` is total and deterministic; None is an exception from the parser. */
  datatype Config = Config(parse: Bytes -> Option<Parsed>, maxHold: int)

  function KeyOf(cfg: Config, raw: Bytes): Option<Key> {
    match cfg.parse(raw)
    case None => None
    case Some(Parsed(None)) => Some(ByRaw(raw))
    case Some(Parsed(Some(id))) => Some(ByMessageId(id))
  }

  /** Committed rows: `messages` lists the account's dedup keys in insertion
      order, `labels` maps a message to its UID here, `failed` the poison pills. */
  datatype Db = Db(
    uidvalidity: Option<nat>, uidnext: Option<Uid>,
    messages: seq<Key>, labels: map<Key, Uid>,
    failed: map<Uid, Bytes>, holds: Holds)

  datatype MailboxRow = MailboxRow(uidvalidity: Option<nat>, uidnext: Option<Uid>)

  /** UIDs named by a log line: "was expunged before fetch", or an error saying
      that a bookkeeping row about them could not be written. */
  datatype Log = Log(expunged: set<Uid>, errors: set<Uid>)

  const EMPTY_LOG := Log({}, {})

  // --- what the outside contributes --------------------------------------------

  datatype Fault = NoFault | Contention | OtherError

  /** Everything the outside decides about one UID of a pass. `present` is the
      probe's answer, which is true when the probe itself fails. */
  datatype Answer = Answer(
    body: Option<Bytes>, present: bool,
    attemptOk: bool, gaveUpOk: bool,
    storing: Fault, logging: Fault, stamp: Time)

  /** A missing and an empty BODY[] read alike. */
  predicate HasBody(a: Answer) {
    a.body.Some? && a.body.value != []
  }

  // --- one message -------------------------------------------------------------

  function UpsertMessage(messages: seq<Key>, key: Key): (seq<Key>, bool) {
    if key in messages then (messages, false) else (messages + [key], true)
  }

  /** UNIQUE (mailbox_id, uid), as the label upsert meets it. */
  predicate LabelConflict(labels: map<Key, Uid>, key: Key, uid: Uid) {
    exists k :: k in labels && k != key && labels[k] == uid
  }

  datatype Processed = Stored(db: Db, inserted: bool) | Rejected | Contended

  /** `process_one_message` inside its savepoint. */
  function ProcessOneMessage(db: Db, uid: Uid, raw: Bytes, storing: Fault, cfg: Config): Processed {
    match KeyOf(cfg, raw)
    case None => Rejected
    case Some(key) =>
      if storing.Contention? then Contended
      else if storing.OtherError? || LabelConflict(db.labels, key, uid) then Rejected
      else
        var (messages, inserted) := UpsertMessage(db.messages, key);
        Stored(db.(messages := messages, labels := db.labels[key := uid]), inserted)
  }

  /** The state of a pass inside one batch transaction. Of the hold history read
      at the start of the pass only the UIDs are ever looked at: `held`. */
  datatype Work = Work(
    db: Db, log: Log, highestSeen: nat, holdAt: Option<Uid>,
    held: set<Uid>, emptying: bool, inserted: nat)

  function Advance(w: Work, uid: Uid): Work {
    w.(highestSeen := Max(w.highestSeen, uid))
  }

  /** FETCH returned no body. */
  function OnEmptyBody(w: Work, uid: Uid, a: Answer, now: Time, cfg: Config): Work {
    if !w.emptying && !a.present then
      Advance(w.(log := w.log.(expunged := w.log.expunged + {uid})), uid)
    else
      var holds := if a.attemptOk then RecordAttempt(w.db.holds, uid, a.stamp) else w.db.holds;
      var firstSeen := if a.attemptOk then holds[uid].firstSeen else a.stamp;
      var errors := w.log.errors + (if a.attemptOk then {} else {uid});
      if HoldExpired(firstSeen, now, cfg.maxHold) then
        var holds' := if a.gaveUpOk then MarkGaveUp(holds, uid, a.stamp) else holds;
        var errors' := errors + (if a.gaveUpOk then {} else {uid});
        Advance(w.(db := w.db.(holds := holds'), log := w.log.(errors := errors'),
                   emptying := true), uid)
      else
        w.(db := w.db.(holds := holds), log := w.log.(errors := errors), emptying := true,
           held := w.held + {uid},
           holdAt := Some(match w.holdAt case None => uid case Some(h) => Min(h, uid)))
  }

  /** FETCH returned a body. None: contention aborts the pass. */
  function OnBody(w: Work, uid: Uid, a: Answer, cfg: Config): Option<Work>
    requires HasBody(a)
  {
    var raw := a.body.value;
    var w := if uid in w.held
             then w.(db := w.db.(holds := ClearAttempts(w.db.holds, uid)), held := w.held - {uid})
             else w;
    match ProcessOneMessage(w.db, uid, raw, a.storing, cfg)
    case Contended => None
    case Stored(db, inserted) =>
      Some(Advance(w.(db := db, inserted := w.inserted + if inserted then 1 else 0), uid))
    case Rejected =>
      match a.logging
      case Contention => None
      case OtherError =>
        Some(Advance(w.(log := w.log.(errors := w.log.errors + {uid})), uid))
      case NoFault =>
        Some(Advance(w.(db := w.db.(failed := w.db.failed[uid := raw])), uid))
  }

  function ProcessUid(w: Work, uid: Uid, a: Answer, now: Time, cfg: Config): Option<Work> {
    if HasBody(a) then OnBody(w, uid, a, cfg) else Some(OnEmptyBody(w, uid, a, now, cfg))
  }

  function ProcessChunk(w: Work, chunk: seq<Uid>, answers: Uid -> Answer, now: Time, cfg: Config)
    : Option<Work>
    decreases |chunk|
  {
    if chunk == [] then Some(w)
    else
      match ProcessUid(w, chunk[0], answers(chunk[0]), now, cfg)
      case None => None
      case Some(w') => ProcessChunk(w', chunk[1..], answers, now, cfg)
  }

  // --- one batch ---------------------------------------------------------------

  datatype Scan = Scan(
    todo: seq<Uid>, highestSeen: nat, holdAt: Option<Uid>,
    held: set<Uid>, emptying: bool, now: Time)

  function Resume(w: Work): Uid {
    CheckpointUidnext(w.highestSeen, w.holdAt)
  }

  function Checkpoint(w: Work, validity: nat): Db {
    w.db.(uidvalidity := Some(validity), uidnext := Some(Resume(w)),
          holds := ReclaimBelow(w.db.holds, Resume(w)))
  }

  datatype Batch = Committed(db: Db, scan: Scan, log: Log, inserted: nat) | RolledBack

  function FirstBatch(todo: seq<Uid>): (r: seq<Uid>)
    ensures r <= todo && |r| == if |todo| <= 50 then |todo| else 50
  {
    todo[..Min(BATCH_SIZE, |todo|)]
  }

  function OpenBatch(db: Db, scan: Scan): Work {
    Work(db, EMPTY_LOG, scan.highestSeen, scan.holdAt, scan.held, scan.emptying, 0)
  }

  /** One batch transaction: everything up to its commit, or nothing. */
  function BatchStep(db: Db, scan: Scan, answers: Uid -> Answer, validity: nat, cfg: Config): Batch {
    var chunk := FirstBatch(scan.todo);
    match ProcessChunk(OpenBatch(db, scan), chunk, answers, scan.now, cfg)
    case None => RolledBack
    case Some(w) =>
      Committed(Checkpoint(w, validity),
                Scan(scan.todo[|chunk|..], w.highestSeen, w.holdAt, w.held, w.emptying, scan.now),
                w.log, w.inserted)
  }

  // --- starting a pass -----------------------------------------------------------

  /** Python's `mailbox.uidnext or 1`. */
  function StoredUidnext(row: MailboxRow): (r: Uid)
    ensures r >= 1
  {
    match row.uidnext
    case None => 1
    case Some(w) => if w == 0 then 1 else w
  }

  predicate FullSync(row: MailboxRow, validity: nat) {
    row.uidvalidity != Some(validity)
  }

  /** A changed UIDVALIDITY drops this mailbox's labels and hold history. */
  function SelectDb(db: Db, row: MailboxRow, validity: nat): Db {
    if FullSync(row, validity) && row.uidvalidity.Some?
    then db.(labels := map[], holds := map[])
    else db
  }

  /** SEARCH UID n:* — RFC 3501 section 6.4.8 makes `*` the highest UID, so the
      range always holds that one too. */
  function SearchFrom(present: set<Uid>, n: Uid): set<Uid> {
    set u | u in present && (n <= u || forall v :: v in present ==> v <= u)
  }

  function FilterNewUids(uids: set<Uid>, knownUidnext: Option<Uid>): (r: seq<Uid>)
    ensures Ascending(r)
    ensures forall u :: u in r <==> u in uids && (knownUidnext.Some? ==> u >= knownUidnext.value)
  {
    match knownUidnext
    case None => Sorted(uids)
    case Some(n) => Sorted(set u | u in uids && u >= n)
  }

  function Candidates(row: MailboxRow, validity: nat, present: set<Uid>): (r: seq<Uid>)
    ensures Ascending(r)
    ensures forall u :: u in r <==> u in present && (FullSync(row, validity) || u >= StoredUidnext(row))
  {
    if FullSync(row, validity) then Sorted(present)
    else FilterNewUids(SearchFrom(present, StoredUidnext(row)), Some(StoredUidnext(row)))
  }

  /** Python's `uids[:n]`, negative `n` included. */
  function Slice(uids: seq<Uid>, n: int): seq<Uid> {
    uids[..if n >= 0 then Min(n, |uids|) else Max(0, |uids| + n)]
  }

  function Truncate(candidates: seq<Uid>, limit: Option<int>): (r: seq<Uid>)
    ensures r <= candidates && (limit.None? ==> r == candidates)
    ensures limit.Some? && limit.value >= 0 ==> |r| == Min(limit.value, |candidates|)
    ensures limit.Some? && limit.value < 0 ==> |r| == Max(0, |candidates| + limit.value)
  {
    match limit
    case None => candidates
    case Some(n) => if |candidates| > n then Slice(candidates, n) else candidates
  }

  function Todo(row: MailboxRow, validity: nat, present: set<Uid>, limit: Option<int>): seq<Uid> {
    Truncate(Candidates(row, validity, present), limit)
  }

  /** Nothing to fetch: jump to the server's UIDNEXT (0 when it names none). */
  function NothingNew(db: Db, row: MailboxRow, validity: nat, serverUidnext: Uid): Db {
    db.(uidvalidity := Some(validity),
        uidnext := Some(if serverUidnext != 0 then serverUidnext else StoredUidnext(row)))
  }

  /** `highest_seen` starts from the stored watermark, on a full resync too. */
  function StartScan(db: Db, row: MailboxRow, todo: seq<Uid>, now: Time): Scan {
    Scan(todo, StoredUidnext(row) - 1, None, db.holds.Keys, false, now)
  }

  // --- what other sessions commit between two batches ------------------------------

  datatype Foreign =
    | Rewind(stamp: Time)                      // retry-failed-fetches
    | Forget(cutoff: Option<Time>)             // retry-failed-fetches --forget
    | RetryFailed(uid: Uid, storing: Fault)    // retry-failed, one row
    | Archive(key: Key)                        // another mailbox of the account

  function ForeignDb(db: Db, f: Foreign, cfg: Config): Db {
    match f
    case Rewind(stamp) =>
      var target := RewindTarget(Tombstones(db.holds), db.uidnext);
      db.(uidnext := if target.Some? then target else db.uidnext,
          holds := ArmForRetry(db.holds, stamp))
    case Forget(cutoff) => db.(holds := PurgeGaveUp(db.holds, cutoff))
    case RetryFailed(uid, storing) =>
      if uid !in db.failed then db
      else
        (match ProcessOneMessage(db, uid, db.failed[uid], storing, cfg)
         case Stored(db', _) => db'.(failed := db'.failed - {uid})
         case Rejected => db
         case Contended => db)
    case Archive(key) => db.(messages := UpsertMessage(db.messages, key).0)
  }

  // --- a whole pass ------------------------------------------------------------------

  /** A pass stops at its commits for others: before SEARCH (point 0) and before
      its i-th batch (point i, from 1). `others(i, db)` are the tables as it finds
      them there, whatever has been committed on top of `db`; it dies at `crashAt`. */
  datatype Session = Session(
    answers: Uid -> Answer, now: Time,
    others: (nat, Db) -> Db, crashAt: Option<nat>)

  datatype PassEnd = Finished | Died

  datatype PassResult = PassResult(db: Db, log: Log, inserted: nat, end: PassEnd)

  function Batches(db: Db, log: Log, inserted: nat, scan: Scan, i: nat, validity: nat,
                   session: Session, cfg: Config): PassResult
    decreases |scan.todo|, 1
  {
    if scan.todo == [] then PassResult(db, log, inserted, Finished)
    else
      var db := session.others(i, db);
      if session.crashAt == Some(i) then PassResult(db, log, inserted, Died)
      else Transaction(db, log, inserted, scan, i, validity, session, cfg)
  }

  function Transaction(db: Db, log: Log, inserted: nat, scan: Scan, i: nat, validity: nat,
                       session: Session, cfg: Config): PassResult
    requires scan.todo != []
    decreases |scan.todo|, 0
  {
    match BatchStep(db, scan, session.answers, validity, cfg)
    case RolledBack => PassResult(db, log, inserted, Died)
    case Committed(db', scan', log', inserted') =>
      Batches(db', Log(log.expunged + log'.expunged, log.errors + log'.errors),
              inserted + inserted', scan', i + 1, validity, session, cfg)
  }

  /** One iteration of the loop, which another session's commit comes before. */
  lemma OneIteration(db: Db, log: Log, inserted: nat, scan: Scan, i: nat, validity: nat, session: Session,
                     cfg: Config)
    requires scan.todo != [] && session.crashAt != Some(i)
    ensures var found := session.others(i, db);
            Batches(db, log, inserted, scan, i, validity, session, cfg)
            == match BatchStep(found, scan, session.answers, validity, cfg)
               case RolledBack => PassResult(found, log, inserted, Died)
               case Committed(db', scan', log', inserted') =>
                 Batches(db', Log(log.expunged + log'.expunged, log.errors + log'.errors), inserted + inserted',
                         scan', i + 1, validity, session, cfg)
  {
  }

  /** `uidnext` is what SELECT answers, `present` the mailbox as SEARCH sees it. */
  datatype Selected = Selected(validity: nat, uidnext: Uid, present: set<Uid>)

  function Pass(db: Db, row: MailboxRow, status: Selected, limit: Option<int>,
                session: Session, cfg: Config): PassResult {
    var db := session.others(0, SelectDb(db, row, status.validity));
    if session.crashAt == Some(0) then PassResult(db, EMPTY_LOG, 0, Died)
    else PassOver(db, row, status, Todo(row, status.validity, status.present, limit), session, cfg)
  }

  function PassOver(db: Db, row: MailboxRow, status: Selected, todo: seq<Uid>,
                    session: Session, cfg: Config): PassResult {
    if todo == [] then
      PassResult(NothingNew(db, row, status.validity, status.uidnext), EMPTY_LOG, 0, Finished)
    else
      Batches(db, EMPTY_LOG, 0, StartScan(db, row, todo, session.now), 1, status.validity, session, cfg)
  }

  /** The code: the tables, and the variables of the running pass, updated in place. */
  class MailboxSync {
    var db: Db
    var log: Log
    var highestSeen: nat
    var holdAt: Option<Uid>
    var held: set<Uid>
    var emptying: bool
    var inserted: nat

    function InBatch(): Work
      reads this
    {
      Work(db, log, highestSeen, holdAt, held, emptying, inserted)
    }

    method HoldOrGiveUp(uid: Uid, a: Answer, now: Time, cfg: Config)
      modifies this
      ensures InBatch() == OnEmptyBody(old(InBatch()), uid, a, now, cfg)
    {
      if !emptying && !a.present {
        log := log.(expunged := log.expunged + {uid});
        highestSeen := Max(highestSeen, uid);
        return;
      }
      emptying := true;
      var firstSeen := a.stamp;
      if a.attemptOk {
        db := db.(holds := RecordAttempt(db.holds, uid, a.stamp));
        firstSeen := db.holds[uid].firstSeen;
      } else {
        log := log.(errors := log.errors + {uid});
      }
      if HoldExpired(firstSeen, now, cfg.maxHold) {
        if a.gaveUpOk {
          db := db.(holds := MarkGaveUp(db.holds, uid, a.stamp));
        } else {
          log := log.(errors := log.errors + {uid});
        }
        highestSeen := Max(highestSeen, uid);
      } else {
        held := held + {uid};
        holdAt := Some(match holdAt case None => uid case Some(h) => Min(h, uid));
      }
    }

    /** False: contention, the caller rolls the batch back. */
    method StoreOrRecord(uid: Uid, a: Answer, cfg: Config) returns (ok: bool)
      requires HasBody(a)
      modifies this
      ensures ok <==> OnBody(old(InBatch()), uid, a, cfg).Some?
      ensures ok ==> Some(InBatch()) == OnBody(old(InBatch()), uid, a, cfg)
    {
      var raw := a.body.value;
      if uid in held {
        db := db.(holds := ClearAttempts(db.holds, uid));
        held := held - {uid};
      }
      match ProcessOneMessage(db, uid, raw, a.storing, cfg) {
        case Contended => return false;
        case Stored(stored, isNew) =>
          db := stored;
          if isNew {
            inserted := inserted + 1;
          }
        case Rejected =>
          match a.logging {
            case Contention => return false;
            case OtherError => log := log.(errors := log.errors + {uid});
            case NoFault => db := db.(failed := db.failed[uid := raw]);
          }
      }
      highestSeen := Max(highestSeen, uid);
      return true;
    }

    method RunBatch(chunk: seq<Uid>, answers: Uid -> Answer, validity: nat, now: Time, cfg: Config)
      returns (ok: bool)
      modifies this
      ensures var r := ProcessChunk(old(InBatch()), chunk, answers, now, cfg);
              && (ok <==> r.Some?)
              && (ok ==> InBatch() == r.value.(db := Checkpoint(r.value, validity)))
    {
      ghost var w := InBatch();
      for i := 0 to |chunk|
        invariant ProcessChunk(w, chunk, answers, now, cfg)
                  == ProcessChunk(InBatch(), chunk[i..], answers, now, cfg)
      {
        var a := answers(chunk[i]);
        ghost var before := InBatch();
        assert chunk[i..][1..] == chunk[i + 1..];
        if HasBody(a) {
          ok := StoreOrRecord(chunk[i], a, cfg);
          if !ok {
            return;
          }
        } else {
          HoldOrGiveUp(chunk[i], a, now, cfg);
        }
        assert Some(InBatch()) == ProcessUid(before, chunk[i], a, now, cfg);
      }
      assert chunk[|chunk|..] == [];
      var resumeAt := CheckpointUidnext(highestSeen, holdAt);
      db := db.(uidvalidity := Some(validity), uidnext := Some(resumeAt),
                holds := ReclaimBelow(db.holds, resumeAt));
      return true;
    }

    /** Between two batches: what the loop of `SyncMailbox` carries along. */
    function Scanning(uids: seq<Uid>, now: Time): Scan
      reads this
    {
      Scan(uids, highestSeen, holdAt, held, emptying, now)
    }

    /** One batch transaction; on contention it is rolled back whole. */
    method Transact(uids: seq<Uid>, session: Session, validity: nat, cfg: Config)
      returns (ok: bool)
      modifies this
      ensures match BatchStep(old(db), old(Scanning(uids, session.now)),
                              session.answers, validity, cfg)
              case RolledBack =>
                !ok && db == old(db) && log == old(log) && inserted == old(inserted)
              case Committed(db', scan, more, n) =>
                && ok && db == db'
                && Scanning(uids[|FirstBatch(uids)|..], session.now) == scan
                && log == Log(old(log).expunged + more.expunged, old(log).errors + more.errors)
                && inserted == old(inserted) + n
    {
      var saved, savedLog, savedInserted := db, log, inserted;
      log, inserted := EMPTY_LOG, 0;
      ok := RunBatch(FirstBatch(uids), session.answers, validity, session.now, cfg);
      if ok {
        log := Log(savedLog.expunged + log.expunged, savedLog.errors + log.errors);
        inserted := savedInserted + inserted;
      } else {
        db := saved;
        log, inserted := savedLog, savedInserted;
      }
    }

    method RunBatches(todo: seq<Uid>, session: Session, validity: nat, cfg: Config)
      returns (end: PassEnd)
      modifies this
      ensures PassResult(db, log, inserted, end)
              == Batches(old(db), old(log), old(inserted), old(Scanning(todo, session.now)),
                         1, validity, session, cfg)
    {
      var uids, i := todo, 1;
      while uids != []
        invariant Batches(old(db), old(log), old(inserted), old(Scanning(todo, session.now)),
                          1, validity, session, cfg)
                  == Batches(db, log, inserted, Scanning(uids, session.now),
                             i, validity, session, cfg)
        decreases |uids|
      {
        db := session.others(i, db);
        if session.crashAt == Some(i) {
          return Died;
        }
        var ok := Transact(uids, session, validity, cfg);
        if !ok {
          return Died;
        }
        uids, i := uids[|FirstBatch(uids)|..], i + 1;
      }
      return Finished;
    }

    method ListUids(row: MailboxRow, status: Selected, limit: Option<int>) returns (uids: seq<Uid>)
      ensures uids == Todo(row, status.validity, status.present, limit)
    {
      if row.uidvalidity != Some(status.validity) {
        uids := Sorted(status.present);
      } else {
        var last := StoredUidnext(row);
        uids := FilterNewUids(SearchFrom(status.present, last), Some(last));
      }
      if limit.Some? && |uids| > limit.value {
        uids := Slice(uids, limit.value);
      }
    }

    method FetchAll(row: MailboxRow, status: Selected, uids: seq<Uid>, session: Session, cfg: Config)
      returns (end: PassEnd)
      modifies this
      ensures PassResult(db, log, inserted, end)
              == PassOver(old(db), row, status, uids, session, cfg)
    {
      log, inserted := EMPTY_LOG, 0;
      if uids == [] {
        db := db.(uidvalidity := Some(status.validity),
                  uidnext := Some(if status.uidnext != 0 then status.uidnext
                                  else StoredUidnext(row)));
        return Finished;
      }
      highestSeen, holdAt, emptying := StoredUidnext(row) - 1, None, false;
      held := db.holds.Keys;
      end := RunBatches(uids, session, status.validity, cfg);
    }

    /** The whole pass does exactly what `Pass` says, to the tables and the log,
        whatever other sessions commit between its batches and however it ends. */
    method SyncMailbox(row: MailboxRow, status: Selected, limit: Option<int>,
                       session: Session, cfg: Config) returns (end: PassEnd)
      modifies this
      ensures PassResult(db, log, inserted, end)
              == Pass(old(db), row, status, limit, session, cfg)
    {
      if row.uidvalidity != Some(status.validity) && row.uidvalidity.Some? {
        db := db.(labels := map[], holds := map[]);
      }
      db := session.others(0, db);
      if session.crashAt == Some(0) {
        log, inserted := EMPTY_LOG, 0;
        return Died;
      }
      var uids := ListUids(row, status, limit);
      end := FetchAll(row, status, uids, session, cfg);
    }
  }
}
