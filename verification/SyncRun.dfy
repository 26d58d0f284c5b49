/** Runs of the sync protocol on one mailbox: the server, any number of passes,
    operators and other sessions, interleaved at their commits. */
module SyncRun {
  import opened Prelude
  import opened Uids
  import opened FetchRetry
  import opened Sync

  // --- the world -----------------------------------------------------------------

  /** `delivered` is every message this UIDVALIDITY ever gave a UID, `present`
      the UIDs not expunged. UIDs only go up: section 2.3.1.1 of RFC 3501. Some
      servers name their UIDNEXT on every SELECT: `announces`. */
  datatype Server = Server(
    validity: nat, next: Uid, delivered: map<Uid, Bytes>, present: set<Uid>, announces: bool)

  /** What was learnt or decided about UIDs of this UIDVALIDITY: seen to be absent
      by a SEARCH or a probe, named by an error line, forgotten by an operator. */
  datatype Ledger = Ledger(absent: set<Uid>, errors: set<Uid>, forgotten: set<Uid>)

  /** A commit a pass still makes without asking the server again. */
  datatype Pending =
    | ToClear(cleared: MailboxRow)                     // SELECT has answered a changed UIDVALIDITY
    | ToJump(nothing: MailboxRow, jump: Uid)           // SEARCH has found nothing
    | ToStore(chunk: Scan)                             // FETCH has returned

  /** `Late`: the server of its session is gone, one commit is in hand. */
  datatype Progress =
    | Opened(row: MailboxRow)                          // mailbox row read
    | AfterSelect(row: MailboxRow, uidnext: Uid)       // UIDNEXT read, stale rows dropped
    | Fetching(scan: Scan)
    | Late(pending: Pending, known: Server)

  type PassId = nat

  datatype State = State(db: Db, server: Server, ledger: Ledger, passes: map<PassId, Progress>)

  datatype Event =
    | Deliver(uid: Uid, raw: Bytes)
    | Expunge(gone: Uid)
    | Renumber(validity: nat, base: Uid, inFlight: set<PassId>)
    | Open(pass: PassId)
    | Select(pass: PassId, namesUidnext: bool)
    | Search(pass: PassId, limit: Option<int>, now: Time)
    | RunBatch(pass: PassId, answers: Uid -> Answer)
    | CommitLate(pass: PassId, answers: Uid -> Answer)
    | Die(pass: PassId)
    | Commit(foreign: Foreign)

  ghost predicate Initial(s: State) {
    && s.db == Db(None, None, [], map[], map[], map[])
    && s.passes == map[] && s.ledger == Ledger({}, {}, {})
    && ServerOk(s)
  }

  ghost predicate ServerOk(s: State) {
    && 1 <= s.server.next
    && s.server.present <= s.server.delivered.Keys
    && (forall u :: u in s.server.delivered ==> 1 <= u < s.server.next)
    && s.ledger.absent <= s.server.delivered.Keys - s.server.present
  }

  /** What the server may answer about `uid`: its own body if any, and absence
      only when it is absent. Anything else, nothing included, it may also say. */
  ghost predicate Truthful(server: Server, uid: Uid, a: Answer) {
    && (HasBody(a) ==> uid in server.delivered && server.delivered[uid] == a.body.value)
    && (!HasBody(a) && !a.present ==> uid !in server.present)
  }

  /** What FETCH returned and the database stamps, for a chunk whose pass read its
      clock before: `now()` of a later transaction, or of the same one. */
  ghost predicate Answered(server: Server, scan: Scan, answers: Uid -> Answer) {
    forall u :: u in FirstBatch(scan.todo) ==>
      Truthful(server, u, answers(u)) && scan.now <= answers(u).stamp
  }

  /** The commit a pass has in hand, if the server has said all it takes. */
  function InHand(p: Progress, server: Server): Option<Pending> {
    match p
    case Opened(row) =>
      if FullSync(row, server.validity) && row.uidvalidity.Some? then Some(ToClear(row)) else None
    case AfterSelect(row, uidnext) =>
      if Candidates(row, server.validity, server.present) == [] then Some(ToJump(row, uidnext)) else None
    case Fetching(scan) => Some(ToStore(scan))
    case Late(_, _) => None
  }

  ghost predicate Enabled(s: State, e: Event) {
    match e
    case Deliver(uid, _) => uid >= s.server.next
    case Expunge(_) => true
    case Renumber(validity, base, inFlight) =>
      && validity > s.server.validity && base >= 1
      && forall p :: p in inFlight ==> p in s.passes && InHand(s.passes[p], s.server).Some?
    case Open(pass) => pass !in s.passes
    case Select(pass, names) =>
      pass in s.passes && s.passes[pass].Opened? && (s.server.announces ==> names)
    case Search(pass, _, _) => pass in s.passes && s.passes[pass].AfterSelect?
    case RunBatch(pass, answers) =>
      && pass in s.passes && s.passes[pass].Fetching? && s.passes[pass].scan.todo != []
      && Answered(s.server, s.passes[pass].scan, answers)
    case CommitLate(pass, answers) =>
      && pass in s.passes && s.passes[pass].Late?
      && (s.passes[pass].pending.ToStore? ==> Answered(s.passes[pass].known, s.passes[pass].pending.chunk, answers))
    case Die(pass) => pass in s.passes
    case Commit(_) => true
  }

  function Learn(ledger: Ledger, log: Log): Ledger {
    ledger.(absent := ledger.absent + log.expunged, errors := ledger.errors + log.errors)
  }

  /** A SEARCH from the watermark shows which delivered UIDs are gone. */
  ghost function Unlisted(server: Server, row: MailboxRow): set<Uid> {
    set u | u in server.delivered && u !in server.present
            && (FullSync(row, server.validity) || u >= StoredUidnext(row))
  }

  ghost function Purged(s: State, cutoff: Option<Time>): set<Uid> {
    set u | u in s.db.holds && Purgeable(s.db.holds[u], cutoff)
  }

  predicate Current(s: State) {
    s.db.uidvalidity == Some(s.server.validity)
  }

  ghost function Apply(s: State, e: Event, cfg: Config): State
    requires Enabled(s, e)
  {
    match e
    case Deliver(uid, raw) => ApplyDeliver(s, uid, raw)
    case Expunge(gone) => s.(server := s.server.(present := s.server.present - {gone}))
    case Renumber(validity, base, inFlight) =>
      State(s.db, Server(validity, base, map[], {}, s.server.announces), Ledger({}, {}, {}),
            Outlive(s, inFlight))
    case Open(pass) => ApplyOpen(s, pass)
    case Select(pass, namesUidnext) => ApplySelect(s, pass, namesUidnext)
    case Search(pass, limit, now) => ApplySearch(s, pass, limit, now)
    case RunBatch(pass, answers) => ApplyBatch(s, pass, answers, cfg)
    case CommitLate(pass, answers) =>
      s.(db := LateDb(s.db, s.passes[pass].pending, s.passes[pass].known, answers, cfg), passes := s.passes - {pass})
    case Die(pass) => s.(passes := s.passes - {pass})
    case Commit(foreign) =>
      s.(db := ForeignDb(s.db, foreign, cfg),
         ledger := if foreign.Forget? && Current(s)
                   then s.ledger.(forgotten := s.ledger.forgotten + Purged(s, foreign.cutoff))
                   else s.ledger)
  }

  /** Sessions end with their numbering, but for a row read and a commit in hand. */
  ghost function Outlive(s: State, inFlight: set<PassId>): map<PassId, Progress>
    requires forall p :: p in inFlight ==> p in s.passes && InHand(s.passes[p], s.server).Some?
  {
    map p | p in s.passes && (s.passes[p].Opened? || s.passes[p].Late? || p in inFlight) ::
      if p in inFlight then Late(InHand(s.passes[p], s.server).value, s.server) else s.passes[p]
  }

  /** The commit in hand, under the numbering its pass knew. */
  function LateDb(db: Db, pending: Pending, known: Server, answers: Uid -> Answer, cfg: Config): Db {
    match pending
    case ToClear(row) => SelectDb(db, row, known.validity)
    case ToJump(row, uidnext) => NothingNew(db, row, known.validity, uidnext)
    case ToStore(scan) =>
      match BatchStep(db, scan, answers, known.validity, cfg)
      case RolledBack => db
      case Committed(db', _, _, _) => db'
  }

  ghost function ApplyDeliver(s: State, uid: Uid, raw: Bytes): State {
    s.(server := s.server.(next := uid + 1, delivered := s.server.delivered[uid := raw],
                           present := s.server.present + {uid}))
  }

  ghost function ApplyOpen(s: State, pass: PassId): State {
    s.(passes := s.passes[pass := Opened(StoredRow(s.db))])
  }

  ghost function ApplySelect(s: State, pass: PassId, namesUidnext: bool): State
    requires pass in s.passes && s.passes[pass].Opened?
  {
    var row := s.passes[pass].row;
    s.(db := SelectDb(s.db, row, s.server.validity),
       passes := s.passes[pass := AfterSelect(row, if namesUidnext then s.server.next else 0)])
  }

  ghost function ApplySearch(s: State, pass: PassId, limit: Option<int>, now: Time): State
    requires pass in s.passes && s.passes[pass].AfterSelect?
  {
    var row := s.passes[pass].row;
    var todo := Todo(row, s.server.validity, s.server.present, limit);
    var ledger := s.ledger.(absent := s.ledger.absent + Unlisted(s.server, row));
    if todo == [] then
      State(NothingNew(s.db, row, s.server.validity, s.passes[pass].uidnext),
            s.server, ledger, s.passes - {pass})
    else
      State(s.db, s.server, ledger,
            s.passes[pass := Fetching(StartScan(s.db, row, todo, now))])
  }

  ghost function ApplyBatch(s: State, pass: PassId, answers: Uid -> Answer, cfg: Config): State
    requires pass in s.passes && s.passes[pass].Fetching?
  {
    match BatchStep(s.db, s.passes[pass].scan, answers, s.server.validity, cfg)
    case RolledBack => s.(passes := s.passes - {pass})
    case Committed(db, scan, log, _) =>
      State(db, s.server, Learn(s.ledger, log),
            if scan.todo == [] then s.passes - {pass} else s.passes[pass := Fetching(scan)])
  }

  ghost predicate Legal(s: State, es: seq<Event>, cfg: Config)
    decreases |es|
  {
    es == [] || (Enabled(s, es[0]) && Legal(Apply(s, es[0], cfg), es[1..], cfg))
  }

  ghost function Run(s: State, es: seq<Event>, cfg: Config): State
    requires Legal(s, es, cfg)
    decreases |es|
  {
    if es == [] then s else Run(Apply(s, es[0], cfg), es[1..], cfg)
  }

  // --- no silent loss --------------------------------------------------------------

  /** Something on record says what became of `uid`. */
  ghost predicate Accounted(db: Db, server: Server, ledger: Ledger, uid: Uid, cfg: Config)
    requires uid in server.delivered
  {
    var raw := server.delivered[uid];
    || (KeyOf(cfg, raw).Some? && KeyOf(cfg, raw).value in db.messages)
    || (uid in db.failed && db.failed[uid] == raw)
    || (db.uidvalidity == Some(server.validity) && Tombstoned(db.holds, uid))
    || uid in ledger.absent || uid in ledger.errors || uid in ledger.forgotten
  }

  ghost predicate AccountedBelow(s: State, w: int, cfg: Config) {
    && w <= s.server.next
    && forall u :: u in s.server.delivered && u < w ==> Accounted(s.db, s.server, s.ledger, u, cfg)
  }

  /** How far a watermark of an older numbering may reach into a new one. Where
      every SELECT names UIDNEXT, a pass that lists nothing does not keep the old
      watermark, and one that lists the first UID starts with it. */
  function Slack(server: Server): nat {
    if server.announces then 1 else 0
  }

  /** A watermark of an older UIDVALIDITY lies below the UIDs of this one. */
  ghost predicate BelowNumbering(server: Server, w: int) {
    && w <= server.next + Slack(server)
    && forall u :: u in server.delivered ==> w <= u + Slack(server)
  }

  ghost predicate NoSilentLoss(s: State, cfg: Config) {
    s.db.uidnext.Some? ==>
      if Current(s) then AccountedBelow(s, s.db.uidnext.value, cfg)
      else BelowNumbering(s.server, s.db.uidnext.value)
  }

  function StoredRow(db: Db): MailboxRow {
    MailboxRow(db.uidvalidity, db.uidnext)
  }

  /** A mailbox row, stored now or read earlier: its watermark is earned, or it
      is of an older UIDVALIDITY and lies below every UID of this one. */
  ghost predicate RowOk(s: State, row: MailboxRow, cfg: Config) {
    && (row.uidvalidity.None? ==> row.uidnext.None?)
    && (row.uidvalidity.Some? ==> row.uidvalidity.value <= s.server.validity)
    && (row.uidvalidity == Some(s.server.validity) ==> Current(s))
    && (row.uidnext.Some? ==>
          if FullSync(row, s.server.validity) then BelowNumbering(s.server, row.uidnext.value)
          else AccountedBelow(s, row.uidnext.value, cfg))
  }

  /** A pass in mid-scan: what it has left behind is accounted for or held. The
      first UID of a new numbering may be the one `highestSeen` was seeded with. */
  ghost predicate ScanOk(db: Db, server: Server, ledger: Ledger, scan: Scan, cfg: Config) {
    && Ascending(scan.todo)
    && (forall u :: u in scan.todo ==> u in server.delivered)
    && scan.highestSeen < server.next
    && (forall u :: u in scan.todo ==> scan.highestSeen < u + Slack(server))
    && (forall u :: u in scan.todo && scan.holdAt.Some? ==> scan.holdAt.value < u)
    && (forall u :: u in server.delivered && u <= scan.highestSeen && u !in scan.todo
          && (scan.holdAt.Some? ==> u < scan.holdAt.value)
          ==> Accounted(db, server, ledger, u, cfg))
    && (forall u, v :: u in server.delivered && v in scan.todo && u < v && u !in scan.todo
          && (scan.holdAt.Some? ==> u < scan.holdAt.value)
          ==> Accounted(db, server, ledger, u, cfg))
  }

  ghost predicate ProgressOk(s: State, p: Progress, cfg: Config) {
    match p
    case Opened(row) => RowOk(s, row, cfg)
    case AfterSelect(row, uidnext) =>
      RowOk(s, row, cfg) && uidnext <= s.server.next && (s.server.announces ==> uidnext != 0)
    case Fetching(scan) => scan.todo != [] && ScanOk(s.db, s.server, s.ledger, scan, cfg)
    case Late(_, _) => false
  }

  /** Hold rows of a renumbered mailbox are gone before a batch can commit. */
  ghost predicate HoldsFresh(s: State) {
    && (s.db.uidvalidity.None? ==> s.db.holds == map[])
    && (Current(s) ==> s.db.holds.Keys <= s.server.delivered.Keys)
    && (forall p :: p in s.passes && !s.passes[p].Opened? && !Current(s) ==> s.db.holds == map[])
  }

  ghost predicate Invariant(s: State, cfg: Config) {
    && ServerOk(s)
    && RowOk(s, StoredRow(s.db), cfg)
    && HoldsFresh(s)
    && forall p :: p in s.passes ==> ProgressOk(s, s.passes[p], cfg)
  }

  // The ways in which a caller or a server can defeat the protocol.

  /** `--limit-per-folder` leaves something of a non-empty listing. */
  predicate LimitOk(limit: Option<int>, listed: nat) {
    limit.None? || limit.value >= 1 || listed == 0 || listed + limit.value > 0 > limit.value
  }

  /** The SELECT step drops hold rows, and they are this numbering's: another
      pass has rebased the mailbox since the row was read. */
  predicate DropsCurrent(row: MailboxRow, db: Db, validity: nat) {
    FullSync(row, validity) && row.uidvalidity.Some? && db.uidvalidity == Some(validity)
  }

  /** The SELECT step drops nothing, the row being from before the first sync,
      and there are hold rows of an older numbering. */
  predicate KeepsStale(row: MailboxRow, db: Db, validity: nat) {
    row.uidvalidity.None? && db.uidvalidity.Some? && db.uidvalidity != Some(validity) && db.holds != map[]
  }

  /** What a pass drops on SELECT is what an older numbering left. */
  predicate RowCurrent(row: MailboxRow, db: Db, validity: nat) {
    !DropsCurrent(row, db, validity) && !KeepsStale(row, db, validity)
  }

  /** The watermark a pass may still carry over lies below the new numbering. */
  predicate BaseOk(server: Server, row: MailboxRow, base: Uid) {
    row.uidnext.Some? ==> row.uidnext.value <= base + Slack(server)
  }

  ghost predicate Disciplined(s: State, e: Event) {
    match e
    case Renumber(_, base, inFlight) =>
      && inFlight == {}
      && BaseOk(s.server, StoredRow(s.db), base)
      && forall p :: p in s.passes && s.passes[p].Opened? ==> BaseOk(s.server, s.passes[p].row, base)
    case Select(pass, _) =>
      pass in s.passes && s.passes[pass].Opened?
      ==> RowCurrent(s.passes[pass].row, s.db, s.server.validity)
    case Search(pass, limit, _) =>
      pass in s.passes && s.passes[pass].AfterSelect?
      ==> LimitOk(limit, |Candidates(s.passes[pass].row, s.server.validity, s.server.present)|)
    case _ => true
  }

  ghost predicate DisciplinedRun(s: State, es: seq<Event>, cfg: Config)
    requires Legal(s, es, cfg)
    decreases |es|
  {
    es != [] ==> Disciplined(s, es[0]) && DisciplinedRun(Apply(s, es[0], cfg), es[1..], cfg)
  }

  /** A step that keeps the UIDs, and every account given of one of them. */
  ghost predicate Keeps(s: State, t: State, cfg: Config) {
    && s.server.validity == t.server.validity && s.server.announces == t.server.announces
    && s.server.delivered.Keys <= t.server.delivered.Keys
    && s.server.next <= t.server.next
    && (forall u :: u in t.server.delivered && u !in s.server.delivered ==> s.server.next <= u)
    && (forall u :: u in s.server.delivered ==> t.server.delivered[u] == s.server.delivered[u])
    && (Current(s) ==> Current(t))
    && (forall u :: u in s.server.delivered && Accounted(s.db, s.server, s.ledger, u, cfg)
          ==> Accounted(t.db, t.server, t.ledger, u, cfg))
  }

  lemma KeepsRow(s: State, t: State, row: MailboxRow, cfg: Config)
    requires Keeps(s, t, cfg) && RowOk(s, row, cfg)
    ensures RowOk(t, row, cfg)
  {
  }

  lemma KeepsScan(s: State, t: State, scan: Scan, cfg: Config)
    requires Keeps(s, t, cfg) && ScanOk(s.db, s.server, s.ledger, scan, cfg)
    requires forall u :: u in s.server.delivered ==> u < s.server.next
    ensures ScanOk(t.db, t.server, t.ledger, scan, cfg)
  {
    forall u, v | u in t.server.delivered && v in scan.todo && u < v && u !in scan.todo
                  && (scan.holdAt.Some? ==> u < scan.holdAt.value)
      ensures Accounted(t.db, t.server, t.ledger, u, cfg)
    {
      assert v in s.server.delivered;
    }
  }

  /** Passes a step leaves alone stay sound; `acting` is the one it moves. */
  lemma KeepsPasses(s: State, t: State, acting: set<PassId>, cfg: Config)
    requires Invariant(s, cfg) && Keeps(s, t, cfg)
    requires forall p :: p in t.passes && p !in acting ==> p in s.passes && t.passes[p] == s.passes[p]
    ensures forall p :: p in t.passes && p !in acting ==> ProgressOk(t, t.passes[p], cfg)
  {
    forall p | p in t.passes && p !in acting ensures ProgressOk(t, t.passes[p], cfg) {
      assert ProgressOk(s, s.passes[p], cfg);
      match s.passes[p]
      case Opened(row) => KeepsRow(s, t, row, cfg);
      case AfterSelect(row, _) => KeepsRow(s, t, row, cfg);
      case Fetching(scan) => KeepsScan(s, t, scan, cfg);
      case Late(_, _) =>
    }
  }

  // --- the steps, one by one ---------------------------------------------------------

  lemma DeliverOk(s: State, uid: Uid, raw: Bytes, cfg: Config)
    requires Invariant(s, cfg) && Enabled(s, Deliver(uid, raw))
    ensures Invariant(Apply(s, Deliver(uid, raw), cfg), cfg)
  {
    var t := Apply(s, Deliver(uid, raw), cfg);
    assert Keeps(s, t, cfg);
    KeepsRow(s, t, StoredRow(s.db), cfg);
    KeepsPasses(s, t, {}, cfg);
  }

  lemma ExpungeOk(s: State, gone: Uid, cfg: Config)
    requires Invariant(s, cfg)
    ensures Invariant(Apply(s, Expunge(gone), cfg), cfg)
  {
    var t := Apply(s, Expunge(gone), cfg);
    assert Keeps(s, t, cfg);
    KeepsRow(s, t, StoredRow(s.db), cfg);
    KeepsPasses(s, t, {}, cfg);
  }

  lemma RenumberOk(s: State, validity: nat, base: Uid, inFlight: set<PassId>, cfg: Config)
    requires Invariant(s, cfg)
    requires Enabled(s, Renumber(validity, base, inFlight)) && Disciplined(s, Renumber(validity, base, inFlight))
    ensures Invariant(Apply(s, Renumber(validity, base, inFlight), cfg), cfg)
  {
  }

  lemma OpenOk(s: State, pass: PassId, cfg: Config)
    requires Invariant(s, cfg) && Enabled(s, Open(pass))
    ensures Invariant(Apply(s, Open(pass), cfg), cfg)
  {
    var t := Apply(s, Open(pass), cfg);
    assert Keeps(s, t, cfg);
    KeepsPasses(s, t, {pass}, cfg);
  }

  lemma DieOk(s: State, pass: PassId, cfg: Config)
    requires Invariant(s, cfg) && Enabled(s, Die(pass))
    ensures Invariant(Apply(s, Die(pass), cfg), cfg)
  {
    KeepsPasses(s, Apply(s, Die(pass), cfg), {}, cfg);
  }

  /** Stale hold rows and labels go while they account for nothing. */
  lemma SelectOk(s: State, pass: PassId, namesUidnext: bool, cfg: Config)
    requires Invariant(s, cfg)
    requires Enabled(s, Select(pass, namesUidnext)) && Disciplined(s, Select(pass, namesUidnext))
    ensures Invariant(Apply(s, Select(pass, namesUidnext), cfg), cfg)
  {
    var t := Apply(s, Select(pass, namesUidnext), cfg);
    assert ProgressOk(s, s.passes[pass], cfg);
    assert Keeps(s, t, cfg);
    KeepsRow(s, t, StoredRow(s.db), cfg);
    KeepsPasses(s, t, {pass}, cfg);
  }

  lemma TruncationLeavesSome(candidates: seq<Uid>, limit: Option<int>)
    ensures LimitOk(limit, |candidates|) <==> (Truncate(candidates, limit) == [] ==> candidates == [])
  {
  }

  /** What the listing leaves out, and what the row's watermark covers. */
  lemma UnlistedAccounted(s: State, row: MailboxRow, ledger: Ledger, cfg: Config)
    requires ServerOk(s) && RowOk(s, row, cfg)
    requires ledger.absent == s.ledger.absent + Unlisted(s.server, row)
    requires ledger.errors == s.ledger.errors && ledger.forgotten == s.ledger.forgotten
    ensures forall u :: u in s.server.delivered
                        && u !in Candidates(row, s.server.validity, s.server.present)
                        ==> Accounted(s.db, s.server, ledger, u, cfg)
    ensures !FullSync(row, s.server.validity) ==>
              forall u :: u in s.server.delivered && u < StoredUidnext(row)
                ==> Accounted(s.db, s.server, ledger, u, cfg)
    ensures forall u :: u in Candidates(row, s.server.validity, s.server.present)
                        ==> StoredUidnext(row) <= u + Slack(s.server)
  {
  }

  lemma NothingNewOk(s: State, pass: PassId, limit: Option<int>, now: Time, cfg: Config)
    requires Invariant(s, cfg) && Enabled(s, Search(pass, limit, now))
    requires Candidates(s.passes[pass].row, s.server.validity, s.server.present) == []
    ensures Todo(s.passes[pass].row, s.server.validity, s.server.present, limit) == []
    ensures RowOk(ApplySearch(s, pass, limit, now), StoredRow(ApplySearch(s, pass, limit, now).db), cfg)
  {
    var row := s.passes[pass].row;
    assert ProgressOk(s, s.passes[pass], cfg);
    var t := ApplySearch(s, pass, limit, now);
    UnlistedAccounted(s, row, t.ledger, cfg);
  }

  /** A truncated listing leaves out only what comes after all it keeps. */
  lemma LeftOutIsAbove(candidates: seq<Uid>, todo: seq<Uid>)
    requires Ascending(candidates) && todo <= candidates
    ensures Ascending(todo) && forall u :: u in todo ==> u in candidates
    ensures forall u, v :: u in candidates && v in todo && u < v ==> u in todo
  {
    forall u, v | u in candidates && v in todo && u < v ensures u in todo {
      var i :| 0 <= i < |candidates| && candidates[i] == u;
      var j :| 0 <= j < |todo| && todo[j] == v;
      assert i < j;
      assert todo[i] == u;
    }
  }

  lemma StartScanOk(s: State, row: MailboxRow, ledger: Ledger, limit: Option<int>, now: Time,
                    cfg: Config)
    requires ServerOk(s) && RowOk(s, row, cfg)
    requires ledger.absent == s.ledger.absent + Unlisted(s.server, row)
    requires ledger.errors == s.ledger.errors && ledger.forgotten == s.ledger.forgotten
    requires Todo(row, s.server.validity, s.server.present, limit) != []
    ensures var todo := Todo(row, s.server.validity, s.server.present, limit);
            ScanOk(s.db, s.server, ledger, StartScan(s.db, row, todo, now), cfg)
  {
    UnlistedAccounted(s, row, ledger, cfg);
    var candidates := Candidates(row, s.server.validity, s.server.present);
    var todo := Todo(row, s.server.validity, s.server.present, limit);
    LeftOutIsAbove(candidates, todo);
    assert todo[0] in todo && todo[0] in candidates;
  }

  lemma SearchKeepsServer(s: State, pass: PassId, limit: Option<int>, now: Time, cfg: Config)
    requires Invariant(s, cfg) && Enabled(s, Search(pass, limit, now))
    ensures ServerOk(ApplySearch(s, pass, limit, now))
    ensures HoldsFresh(ApplySearch(s, pass, limit, now))
  {
  }

  lemma SearchKeeps(s: State, pass: PassId, limit: Option<int>, now: Time, cfg: Config)
    requires Invariant(s, cfg)
    requires Enabled(s, Search(pass, limit, now)) && Disciplined(s, Search(pass, limit, now))
    ensures Keeps(s, ApplySearch(s, pass, limit, now), cfg)
  {
  }

  lemma SearchedPassOk(s: State, pass: PassId, limit: Option<int>, now: Time, cfg: Config)
    requires Invariant(s, cfg)
    requires Enabled(s, Search(pass, limit, now)) && Disciplined(s, Search(pass, limit, now))
    ensures var t := ApplySearch(s, pass, limit, now);
            RowOk(t, StoredRow(t.db), cfg) && (pass in t.passes ==> ProgressOk(t, t.passes[pass], cfg))
  {
    var t := ApplySearch(s, pass, limit, now);
    var row := s.passes[pass].row;
    SearchKeeps(s, pass, limit, now, cfg);
    SearchKeepsServer(s, pass, limit, now, cfg);
    if Todo(row, s.server.validity, s.server.present, limit) == [] {
      TruncationLeavesSome(Candidates(row, s.server.validity, s.server.present), limit);
      NothingNewOk(s, pass, limit, now, cfg);
    } else {
      KeepsRow(s, t, StoredRow(s.db), cfg);
      assert ProgressOk(s, s.passes[pass], cfg);
      StartScanOk(s, row, t.ledger, limit, now, cfg);
    }
  }

  lemma SearchOk(s: State, pass: PassId, limit: Option<int>, now: Time, cfg: Config)
    requires Invariant(s, cfg)
    requires Enabled(s, Search(pass, limit, now)) && Disciplined(s, Search(pass, limit, now))
    ensures Invariant(Apply(s, Search(pass, limit, now), cfg), cfg)
  {
    var t := ApplySearch(s, pass, limit, now);
    SearchKeeps(s, pass, limit, now, cfg);
    SearchKeepsServer(s, pass, limit, now, cfg);
    KeepsPasses(s, t, {pass}, cfg);
    SearchedPassOk(s, pass, limit, now, cfg);
  }

  // --- a batch, UID by UID -------------------------------------------------------------

  /** A batch writes the UIDVALIDITY together with everything else it commits. */
  function Stamped(db: Db, server: Server): Db {
    db.(uidvalidity := Some(server.validity))
  }

  ghost predicate AccountedIn(w: Work, server: Server, ledger: Ledger, uid: Uid, cfg: Config)
    requires uid in server.delivered
  {
    Accounted(Stamped(w.db, server), server, Learn(ledger, w.log), uid, cfg)
  }

  /** The running batch seen as a pass about to fetch `rest`. */
  ghost predicate WorkOk(w: Work, rest: seq<Uid>, server: Server, ledger: Ledger, now: Time, cfg: Config) {
    ScanOk(Stamped(w.db, server), server, Learn(ledger, w.log),
           Scan(rest, w.highestSeen, w.holdAt, w.held, w.emptying, now), cfg)
  }

  ghost predicate KeepsAccounts(w: Work, w': Work, server: Server, ledger: Ledger, cfg: Config) {
    && (forall u :: u in w'.log.expunged && u !in w.log.expunged
          ==> u in server.delivered && u !in server.present)
    && (forall u :: u in w'.db.holds && u !in w.db.holds ==> u in server.delivered)
    && forall u :: u in server.delivered && AccountedIn(w, server, ledger, u, cfg)
         ==> AccountedIn(w', server, ledger, u, cfg)
  }

  /** One UID done: it is passed and accounted for, or it is the lowest hold. */
  ghost predicate PassedOrHeld(w: Work, w': Work, uid: Uid, server: Server, ledger: Ledger, cfg: Config)
    requires uid in server.delivered
  {
    || (w'.highestSeen == Max(w.highestSeen, uid) && w'.holdAt == w.holdAt
        && AccountedIn(w', server, ledger, uid, cfg))
    || (w'.highestSeen == w.highestSeen && w'.holdAt.Some?
        && w'.holdAt.value == (if w.holdAt.Some? then Min(w.holdAt.value, uid) else uid))
  }

  lemma EmptyBodyAccounts(w: Work, uid: Uid, a: Answer, server: Server, ledger: Ledger,
                          now: Time, cfg: Config)
    requires uid in server.delivered && Truthful(server, uid, a) && !HasBody(a)
    ensures KeepsAccounts(w, OnEmptyBody(w, uid, a, now, cfg), server, ledger, cfg)
    ensures PassedOrHeld(w, OnEmptyBody(w, uid, a, now, cfg), uid, server, ledger, cfg)
  {
    var w' := OnEmptyBody(w, uid, a, now, cfg);
    assert forall u :: Tombstoned(w.db.holds, u) ==> Tombstoned(w'.db.holds, u);
  }

  /** No record about another UID goes, and no message ever does. */
  ghost predicate KeepsRecords(db: Db, db': Db, uid: Uid) {
    && (forall k :: k in db.messages ==> k in db'.messages)
    && (forall u :: u != uid && u in db.failed ==> u in db'.failed && db'.failed[u] == db.failed[u])
    && (forall u :: u != uid && Tombstoned(db.holds, u) ==> Tombstoned(db'.holds, u))
  }

  lemma BodyRecords(w: Work, uid: Uid, a: Answer, cfg: Config)
    requires HasBody(a) && OnBody(w, uid, a, cfg).Some?
    ensures var w' := OnBody(w, uid, a, cfg).value;
            && KeepsRecords(w.db, w'.db, uid) && w'.db.holds.Keys <= w.db.holds.Keys
            && w'.log.expunged == w.log.expunged && w.log.errors <= w'.log.errors
            && w'.highestSeen == Max(w.highestSeen, uid) && w'.holdAt == w.holdAt
            && (|| (KeyOf(cfg, a.body.value).Some? && KeyOf(cfg, a.body.value).value in w'.db.messages)
                || (uid in w'.db.failed && w'.db.failed[uid] == a.body.value)
                || uid in w'.log.errors)
  {
  }

  lemma BodyAccounts(w: Work, uid: Uid, a: Answer, server: Server, ledger: Ledger, cfg: Config)
    requires uid in server.delivered && Truthful(server, uid, a) && HasBody(a)
    requires OnBody(w, uid, a, cfg).Some?
    ensures KeepsAccounts(w, OnBody(w, uid, a, cfg).value, server, ledger, cfg)
    ensures PassedOrHeld(w, OnBody(w, uid, a, cfg).value, uid, server, ledger, cfg)
  {
    var w' := OnBody(w, uid, a, cfg).value;
    BodyRecords(w, uid, a, cfg);
    assert AccountedIn(w', server, ledger, uid, cfg);
    forall u | u in server.delivered && u != uid && AccountedIn(w, server, ledger, u, cfg)
      ensures AccountedIn(w', server, ledger, u, cfg)
    {
    }
  }

  lemma ProcessUidAccounts(w: Work, uid: Uid, a: Answer, server: Server, ledger: Ledger,
                           now: Time, cfg: Config)
    requires uid in server.delivered && Truthful(server, uid, a)
    requires ProcessUid(w, uid, a, now, cfg).Some?
    ensures KeepsAccounts(w, ProcessUid(w, uid, a, now, cfg).value, server, ledger, cfg)
    ensures PassedOrHeld(w, ProcessUid(w, uid, a, now, cfg).value, uid, server, ledger, cfg)
  {
    if HasBody(a) {
      BodyAccounts(w, uid, a, server, ledger, cfg);
    } else {
      EmptyBodyAccounts(w, uid, a, server, ledger, now, cfg);
    }
  }

  /** What was skipped before `rest` is behind: it was accounted for, and still is. */
  lemma SkippedStaysAccounted(w: Work, w': Work, rest: seq<Uid>, server: Server, ledger: Ledger,
                              now: Time, cfg: Config, u: Uid, v: Uid)
    requires rest != [] && rest[0] in server.delivered && WorkOk(w, rest, server, ledger, now, cfg)
    requires KeepsAccounts(w, w', server, ledger, cfg)
    requires PassedOrHeld(w, w', rest[0], server, ledger, cfg)
    requires u in server.delivered && v in rest[1..] && u < v && u !in rest[1..]
    requires w'.holdAt.Some? ==> u < w'.holdAt.value
    ensures AccountedIn(w', server, ledger, u, cfg)
  {
    assert v in rest;
    if u != rest[0] {
      assert u !in rest;
    }
  }

  lemma PassedIsAccounted(w: Work, w': Work, rest: seq<Uid>, server: Server, ledger: Ledger,
                          now: Time, cfg: Config, u: Uid)
    requires rest != [] && rest[0] in server.delivered && WorkOk(w, rest, server, ledger, now, cfg)
    requires KeepsAccounts(w, w', server, ledger, cfg)
    requires PassedOrHeld(w, w', rest[0], server, ledger, cfg)
    requires u in server.delivered && u <= w'.highestSeen && u !in rest[1..]
    requires w'.holdAt.Some? ==> u < w'.holdAt.value
    ensures AccountedIn(w', server, ledger, u, cfg)
  {
    assert rest[0] in rest;
    if u != rest[0] {
      assert u !in rest;
    }
  }

  lemma ProcessUidOk(w: Work, rest: seq<Uid>, a: Answer, server: Server, ledger: Ledger,
                     now: Time, cfg: Config)
    requires rest != [] && WorkOk(w, rest, server, ledger, now, cfg)
    requires Truthful(server, rest[0], a)
    requires forall u :: u in server.delivered ==> u < server.next
    requires ProcessUid(w, rest[0], a, now, cfg).Some?
    ensures var w' := ProcessUid(w, rest[0], a, now, cfg).value;
            WorkOk(w', rest[1..], server, ledger, now, cfg) && IsAhead(rest[1..], w'.highestSeen)
  {
    assert rest[0] in rest;
    ProcessUidAccounts(w, rest[0], a, server, ledger, now, cfg);
    RestOk(w, ProcessUid(w, rest[0], a, now, cfg).value, rest, server, ledger, now, cfg);
  }

  lemma RestOk(w: Work, w': Work, rest: seq<Uid>, server: Server, ledger: Ledger, now: Time, cfg: Config)
    requires rest != [] && rest[0] in server.delivered && WorkOk(w, rest, server, ledger, now, cfg)
    requires forall u :: u in server.delivered ==> u < server.next
    requires KeepsAccounts(w, w', server, ledger, cfg)
    requires PassedOrHeld(w, w', rest[0], server, ledger, cfg)
    ensures WorkOk(w', rest[1..], server, ledger, now, cfg) && IsAhead(rest[1..], w'.highestSeen)
  {
    forall u, v | u in server.delivered && v in rest[1..] && u < v && u !in rest[1..]
                  && (w'.holdAt.Some? ==> u < w'.holdAt.value)
      ensures AccountedIn(w', server, ledger, u, cfg)
    {
      SkippedStaysAccounted(w, w', rest, server, ledger, now, cfg, u, v);
    }
    forall u | u in server.delivered && u <= w'.highestSeen && u !in rest[1..]
               && (w'.holdAt.Some? ==> u < w'.holdAt.value)
      ensures AccountedIn(w', server, ledger, u, cfg)
    {
      PassedIsAccounted(w, w', rest, server, ledger, now, cfg, u);
    }
    RestFollows(w, w', rest, server, ledger, now, cfg);
  }

  lemma RestFollows(w: Work, w': Work, rest: seq<Uid>, server: Server, ledger: Ledger, now: Time, cfg: Config)
    requires rest != [] && rest[0] in server.delivered && WorkOk(w, rest, server, ledger, now, cfg)
    requires PassedOrHeld(w, w', rest[0], server, ledger, cfg)
    ensures Ascending(rest[1..])
    ensures forall u :: u in rest[1..] ==>
              u in server.delivered && w'.highestSeen < u && (w'.holdAt.Some? ==> w'.holdAt.value < u)
  {
    assert rest[0] in rest;
    assert w.highestSeen <= rest[0];
    assert forall u :: u in rest[1..] ==> u in rest && rest[0] < u;
  }

  /** Nothing left to fetch has been passed. */
  ghost predicate IsAhead(rest: seq<Uid>, highestSeen: nat) {
    forall u :: u in rest ==> highestSeen < u
  }

  /** What a chunk leaves: `rest` is what is still to fetch after it. */
  ghost predicate ChunkOk(w: Work, r: Option<Work>, rest: seq<Uid>, server: Server, ledger: Ledger,
                          now: Time, cfg: Config) {
    r.Some? ==>
      && WorkOk(r.value, rest, server, ledger, now, cfg)
      && IsAhead(rest, r.value.highestSeen)
      && KeepsAccounts(w, r.value, server, ledger, cfg)
  }

  lemma OneUidOk(w: Work, rest: seq<Uid>, a: Answer, server: Server, ledger: Ledger, now: Time, cfg: Config)
    requires rest != [] && WorkOk(w, rest, server, ledger, now, cfg)
    requires Truthful(server, rest[0], a)
    requires forall u :: u in server.delivered ==> u < server.next
    ensures ChunkOk(w, ProcessUid(w, rest[0], a, now, cfg), rest[1..], server, ledger, now, cfg)
  {
    assert rest[0] in rest;
    if ProcessUid(w, rest[0], a, now, cfg).Some? {
      ProcessUidOk(w, rest, a, server, ledger, now, cfg);
      ProcessUidAccounts(w, rest[0], a, server, ledger, now, cfg);
    }
  }

  lemma FirstThenRest(chunk: seq<Uid>, after: seq<Uid>)
    requires chunk != []
    ensures (chunk + after)[0] == chunk[0] && (chunk + after)[1..] == chunk[1..] + after
    ensures |chunk| == 1 ==> (chunk + after)[1..] == after
    ensures forall u :: u in chunk[1..] ==> u in chunk
  {
  }

  lemma {:induction false} ProcessChunkOk(w: Work, chunk: seq<Uid>, after: seq<Uid>,
                                          answers: Uid -> Answer,
                                          server: Server, ledger: Ledger, now: Time, cfg: Config)
    requires chunk != [] && WorkOk(w, chunk + after, server, ledger, now, cfg)
    requires forall u :: u in chunk ==> Truthful(server, u, answers(u))
    requires forall u :: u in server.delivered ==> u < server.next
    ensures ChunkOk(w, ProcessChunk(w, chunk, answers, now, cfg), after, server, ledger, now, cfg)
    decreases |chunk|
  {
    var first := chunk[0];
    var r := ProcessUid(w, first, answers(first), now, cfg);
    FirstThenRest(chunk, after);
    assert first in chunk;
    OneUidOk(w, chunk + after, answers(first), server, ledger, now, cfg);
    if r.Some? && |chunk| > 1 {
      ProcessChunkOk(r.value, chunk[1..], after, answers, server, ledger, now, cfg);
    }
  }

  /** The checkpoint passes only what is accounted for, and reclaiming dead
      holds takes nobody's account away. */
  lemma CheckpointOk(w: Work, rest: seq<Uid>, server: Server, ledger: Ledger, now: Time, cfg: Config)
    requires WorkOk(w, rest, server, ledger, now, cfg) && IsAhead(rest, w.highestSeen)
    ensures var db := Checkpoint(w, server.validity);
            && (forall u :: u in server.delivered && u < Resume(w)
                  ==> Accounted(db, server, Learn(ledger, w.log), u, cfg))
            && (forall u :: u in server.delivered && AccountedIn(w, server, ledger, u, cfg)
                  ==> Accounted(db, server, Learn(ledger, w.log), u, cfg))
            && Resume(w) <= server.next
            && ScanOk(db, server, Learn(ledger, w.log),
                      Scan(rest, w.highestSeen, w.holdAt, w.held, w.emptying, now), cfg)
  {
    var db := Checkpoint(w, server.validity);
    forall u | u in server.delivered && AccountedIn(w, server, ledger, u, cfg)
      ensures Accounted(db, server, Learn(ledger, w.log), u, cfg)
    {
      assert Tombstoned(w.db.holds, u) ==> Tombstoned(db.holds, u);
    }
  }

  lemma StampAccounts(s: State, scan: Scan, cfg: Config)
    requires ScanOk(s.db, s.server, s.ledger, scan, cfg)
    ensures ScanOk(Stamped(s.db, s.server), s.server, s.ledger, scan, cfg)
    ensures forall u :: u in s.server.delivered && Accounted(s.db, s.server, s.ledger, u, cfg)
              ==> Accounted(Stamped(s.db, s.server), s.server, s.ledger, u, cfg)
  {
  }

  /** The work a batch commits, before its checkpoint. */
  lemma BatchWorkOk(s: State, pass: PassId, answers: Uid -> Answer, cfg: Config)
    requires Invariant(s, cfg) && Enabled(s, RunBatch(pass, answers))
    ensures var scan := s.passes[pass].scan;
            var chunk := FirstBatch(scan.todo);
            ChunkOk(OpenBatch(s.db, scan), ProcessChunk(OpenBatch(s.db, scan), chunk, answers, scan.now, cfg),
                    scan.todo[|chunk|..], s.server, s.ledger, scan.now, cfg)
  {
    var scan := s.passes[pass].scan;
    var chunk := FirstBatch(scan.todo);
    assert ProgressOk(s, s.passes[pass], cfg);
    assert Learn(s.ledger, EMPTY_LOG) == s.ledger;
    StampAccounts(s, scan, cfg);
    assert chunk + scan.todo[|chunk|..] == scan.todo;
    ProcessChunkOk(OpenBatch(s.db, scan), chunk, scan.todo[|chunk|..], answers, s.server, s.ledger, scan.now, cfg);
  }

  lemma BatchCommits(s: State, pass: PassId, answers: Uid -> Answer, cfg: Config)
    requires Invariant(s, cfg) && Enabled(s, RunBatch(pass, answers))
    requires BatchStep(s.db, s.passes[pass].scan, answers, s.server.validity, cfg).Committed?
    ensures var b := BatchStep(s.db, s.passes[pass].scan, answers, s.server.validity, cfg);
            var t := ApplyBatch(s, pass, answers, cfg);
            && Current(t) && ServerOk(t) && HoldsFresh(t) && Keeps(s, t, cfg) && NoSilentLoss(t, cfg)
            && ScanOk(t.db, t.server, t.ledger, b.scan, cfg)
            && IsAhead(b.scan.todo, b.scan.highestSeen)
  {
    var scan := s.passes[pass].scan;
    var chunk := FirstBatch(scan.todo);
    assert ProgressOk(s, s.passes[pass], cfg);
    assert Learn(s.ledger, EMPTY_LOG) == s.ledger;
    StampAccounts(s, scan, cfg);
    BatchWorkOk(s, pass, answers, cfg);
    var w := ProcessChunk(OpenBatch(s.db, scan), chunk, answers, scan.now, cfg).value;
    CheckpointOk(w, scan.todo[|chunk|..], s.server, s.ledger, scan.now, cfg);
  }

  lemma RunBatchOk(s: State, pass: PassId, answers: Uid -> Answer, cfg: Config)
    requires Invariant(s, cfg) && Enabled(s, RunBatch(pass, answers))
    ensures Invariant(Apply(s, RunBatch(pass, answers), cfg), cfg)
  {
    var t := ApplyBatch(s, pass, answers, cfg);
    if BatchStep(s.db, s.passes[pass].scan, answers, s.server.validity, cfg).RolledBack? {
      KeepsPasses(s, t, {}, cfg);
    } else {
      BatchCommits(s, pass, answers, cfg);
      KeepsPasses(s, t, {pass}, cfg);
    }
  }

  // --- what other sessions commit ----------------------------------------------------------

  lemma CommitKeeps(s: State, f: Foreign, cfg: Config)
    requires Invariant(s, cfg)
    ensures Keeps(s, Apply(s, Commit(f), cfg), cfg)
    ensures HoldsFresh(Apply(s, Commit(f), cfg))
  {
    var t := Apply(s, Commit(f), cfg);
    match f
    case Rewind(stamp) =>
      assert forall u :: Tombstoned(s.db.holds, u) ==> Tombstoned(t.db.holds, u);
    case Forget(cutoff) =>
      assert forall u :: Tombstoned(s.db.holds, u) ==> Tombstoned(t.db.holds, u) || u in Purged(s, cutoff);
    case RetryFailed(uid, storing) =>
      assert forall k :: k in s.db.messages ==> k in t.db.messages;
      assert forall u :: u != uid && u in s.db.failed ==> u in t.db.failed && t.db.failed[u] == s.db.failed[u];
    case Archive(key) =>
      assert forall k :: k in s.db.messages ==> k in t.db.messages;
  }

  lemma CommitOk(s: State, f: Foreign, cfg: Config)
    requires Invariant(s, cfg)
    ensures Invariant(Apply(s, Commit(f), cfg), cfg)
  {
    var t := Apply(s, Commit(f), cfg);
    CommitKeeps(s, f, cfg);
    KeepsRow(s, t, StoredRow(s.db), cfg);
    KeepsPasses(s, t, {}, cfg);
  }

  // --- the theorem ---------------------------------------------------------------------------

  /** In a disciplined run no commit outlives its numbering. */
  lemma NoneLate(s: State, pass: PassId, cfg: Config)
    requires Invariant(s, cfg) && pass in s.passes
    ensures !s.passes[pass].Late?
  {
    assert ProgressOk(s, s.passes[pass], cfg);
  }

  lemma StepOk(s: State, e: Event, cfg: Config)
    requires Invariant(s, cfg) && Enabled(s, e) && Disciplined(s, e)
    ensures Invariant(Apply(s, e, cfg), cfg)
  {
    match e
    case Deliver(uid, raw) => DeliverOk(s, uid, raw, cfg);
    case Expunge(gone) => ExpungeOk(s, gone, cfg);
    case Renumber(validity, base, inFlight) => RenumberOk(s, validity, base, inFlight, cfg);
    case Open(pass) => OpenOk(s, pass, cfg);
    case Select(pass, names) => SelectOk(s, pass, names, cfg);
    case Search(pass, limit, now) => SearchOk(s, pass, limit, now, cfg);
    case RunBatch(pass, answers) => RunBatchOk(s, pass, answers, cfg);
    case CommitLate(pass, _) => NoneLate(s, pass, cfg);
    case Die(pass) => DieOk(s, pass, cfg);
    case Commit(f) => CommitOk(s, f, cfg);
  }

  lemma {:induction false} RunOk(s: State, es: seq<Event>, cfg: Config)
    requires Invariant(s, cfg) && Legal(s, es, cfg) && DisciplinedRun(s, es, cfg)
    ensures Invariant(Run(s, es, cfg), cfg)
    decreases |es|
  {
    if es != [] {
      StepOk(s, es[0], cfg);
      RunOk(Apply(s, es[0], cfg), es[1..], cfg);
    }
  }

  /** In every state any run reaches, every UID below the stored watermark that
      the server ever gave out is archived, recorded, or known to be gone; and a
      watermark of an older numbering lies below the UIDs of this one. */
  lemma NothingIsSilentlyLost(s: State, es: seq<Event>, cfg: Config)
    requires Initial(s) && Legal(s, es, cfg) && DisciplinedRun(s, es, cfg)
    ensures var t := Run(s, es, cfg);
            t.db.uidnext.Some? && Current(t) ==>
              && t.db.uidnext.value <= t.server.next
              && forall u :: u in t.server.delivered && u < t.db.uidnext.value
                   ==> Accounted(t.db, t.server, t.ledger, u, cfg)
    ensures var t := Run(s, es, cfg);
            t.db.uidnext.Some? && !Current(t) ==> BelowNumbering(t.server, t.db.uidnext.value)
    ensures var t := Run(s, es, cfg);
            && t.ledger.absent !! t.server.present
            && (Current(t) ==> t.db.holds.Keys <= t.server.delivered.Keys)
  {
    RunOk(s, es, cfg);
  }
}
