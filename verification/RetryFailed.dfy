/** `retry_failed_messages`: every poison pill tried once more, row by row. */
module RetryFailed {
  import opened Prelude
  import opened Uids
  import Sync

  type AccountId = nat
  type MailboxId = nat
  type Message = (AccountId, Sync.Key)

  /** UNIQUE (account_id, mailbox_id, uid) of `failed_messages`. */
  datatype RowKey = RowKey(account: AccountId, mailbox: MailboxId, uid: Uid)

  datatype FailedRow = FailedRow(raw: Bytes, retries: nat)

  datatype Db = Db(
    messages: seq<Message>,
    labels: map<(Message, MailboxId), Uid>,
    failed: map<RowKey, FailedRow>)

  /** The faults the database adds for one row, storing it and re-recording it. */
  datatype Faults = Faults(storing: Sync.Fault, logging: Sync.Fault)

  function UidsIn(labels: map<(Message, MailboxId), Uid>, mailbox: MailboxId): set<Uid> {
    set l | l in labels && l.1 == mailbox :: labels[l]
  }

  /** COALESCE(MAX(uid), 0) */
  function MaxLabelUid(labels: map<(Message, MailboxId), Uid>, mailbox: MailboxId): (m: Uid)
    ensures forall u :: u in UidsIn(labels, mailbox) ==> u <= m
    ensures m == 0 || m in UidsIn(labels, mailbox)
  {
    var uids := Sorted(UidsIn(labels, mailbox));
    assert forall u :: u in UidsIn(labels, mailbox) ==> u in uids;
    if uids == [] then 0 else uids[|uids| - 1]
  }

  function AttemptUid(db: Db, row: RowKey, auth: AuthMethod): Uid {
    if ShouldReallocateUid(auth) then NextUidAfter(Some(MaxLabelUid(db.labels, row.mailbox))) else row.uid
  }

  /** UNIQUE (mailbox_id, uid), as another message's label would violate it. */
  predicate UidTaken(db: Db, message: Message, mailbox: MailboxId, uid: Uid) {
    exists l :: l in db.labels && l.1 == mailbox && l.0 != message && db.labels[l] == uid
  }

  datatype Tried = Recovered(db: Db) | StillFailing(db: Db) | Stopped

  /** What the SELECT read of one row. */
  datatype FailedMessage = FailedMessage(key: RowKey, raw: Bytes)

  function Retries(db: Db, row: RowKey): nat {
    if row in db.failed then db.failed[row].retries + 1 else 0
  }

  /** One row in its own transaction. */
  function RetryOne(db: Db, m: FailedMessage, auth: AuthMethod, faults: Faults, cfg: Sync.Config): Tried {
    var row := m.key;
    var uid := AttemptUid(db, row, auth);
    var key := Sync.KeyOf(cfg, m.raw);
    if key.Some? && faults.storing.Contention? then Stopped
    else if key.None? || faults.storing.OtherError?
            || UidTaken(db, (row.account, key.value), row.mailbox, uid) then
      match faults.logging
      case Contention => Stopped
      case OtherError => StillFailing(db)
      case NoFault => StillFailing(db.(failed := db.failed[row := FailedRow(m.raw, Retries(db, row))]))
    else
      var message := (row.account, key.value);
      Recovered(Db(if message in db.messages then db.messages else db.messages + [message],
                   db.labels[(message, row.mailbox) := uid],
                   db.failed - {row}))
  }

  /** A recovered message is in the archive and has its label: on the UID the server
      gave it, or, of an archive account, above every label there is. */
  lemma RecoveredIsLabelled(db: Db, m: FailedMessage, auth: AuthMethod, faults: Faults, cfg: Sync.Config)
    requires RetryOne(db, m, auth, faults, cfg).Recovered?
    ensures Sync.KeyOf(cfg, m.raw).Some?
    ensures var after := RetryOne(db, m, auth, faults, cfg).db;
            var message := (m.key.account, Sync.KeyOf(cfg, m.raw).value);
            var own := (message, m.key.mailbox);
            && message in after.messages && own in after.labels && m.key !in after.failed
            && (auth.Live? ==> after.labels[own] == m.key.uid)
            && (auth.Archive? ==>
                  forall l :: l in db.labels && l.1 == m.key.mailbox ==> db.labels[l] < after.labels[own])
            && forall l :: l != own ==>
                 (l in after.labels <==> l in db.labels) && (l in after.labels ==> after.labels[l] == db.labels[l])
  {
    forall l | l in db.labels && l.1 == m.key.mailbox ensures db.labels[l] <= MaxLabelUid(db.labels, m.key.mailbox) {
      assert db.labels[l] in UidsIn(db.labels, m.key.mailbox);
    }
  }

  /** A live account's row recovers exactly when its message parses, the database
      takes it, and no other message has its UID. */
  lemma LiveRowRecovers(db: Db, m: FailedMessage, auth: AuthMethod, faults: Faults, cfg: Sync.Config)
    requires auth.Live?
    ensures RetryOne(db, m, auth, faults, cfg).Recovered?
            <==> Sync.KeyOf(cfg, m.raw).Some? && faults.storing.NoFault?
                 && forall l :: l in db.labels && l.1 == m.key.mailbox && db.labels[l] == m.key.uid
                      ==> l.0 == (m.key.account, Sync.KeyOf(cfg, m.raw).value)
  {
  }

  /** A row that fails again stays under its key with its bytes, one more try on
      its count if that could be written, and nothing else changes. */
  lemma FailureIsCounted(db: Db, m: FailedMessage, auth: AuthMethod, faults: Faults, cfg: Sync.Config)
    requires m.key in db.failed && db.failed[m.key].raw == m.raw
    requires RetryOne(db, m, auth, faults, cfg).StillFailing?
    ensures var after := RetryOne(db, m, auth, faults, cfg).db;
            && after.messages == db.messages && after.labels == db.labels && after.failed.Keys == db.failed.Keys
            && after.failed[m.key].raw == m.raw
            && after.failed[m.key].retries == db.failed[m.key].retries + (if faults.logging.NoFault? then 1 else 0)
            && forall k :: k in db.failed && k != m.key ==> after.failed[k] == db.failed[k]
  {
  }

  /** How accounts authenticate, and what the database does to each row. */
  datatype World = World(auth: AccountId -> AuthMethod, faults: RowKey -> Faults, cfg: Sync.Config)

  function Try(db: Db, m: FailedMessage, world: World): Tried {
    RetryOne(db, m, world.auth(m.key.account), world.faults(m.key), world.cfg)
  }

  datatype Result = Result(db: Db, succeeded: nat, stillFailing: nat, stopped: bool)

  /** Row after row, each on what the ones before it left; contention ends it. */
  function RetryAll(db: Db, rows: seq<FailedMessage>, world: World): Result
    decreases |rows|
  {
    if rows == [] then Result(db, 0, 0, false)
    else
      match Try(db, rows[0], world)
      case Stopped => Result(db, 0, 0, true)
      case Recovered(next) => Plus(1, 0, RetryAll(next, rows[1..], world))
      case StillFailing(next) => Plus(0, 1, RetryAll(next, rows[1..], world))
  }

  function Plus(succeeded: nat, stillFailing: nat, r: Result): Result {
    r.(succeeded := succeeded + r.succeeded, stillFailing := stillFailing + r.stillFailing)
  }

  class Retry {
    var db: Db

    /** `stopped` is the re-raised contention. */
    method RetryFailedMessages(rows: seq<FailedMessage>, world: World)
      returns (succeeded: nat, stillFailing: nat, stopped: bool)
      modifies this
      ensures Result(db, succeeded, stillFailing, stopped) == RetryAll(old(db), rows, world)
    {
      succeeded, stillFailing := 0, 0;
      for i := 0 to |rows|
        invariant RetryAll(old(db), rows, world)
                  == Plus(succeeded, stillFailing, RetryAll(db, rows[i..], world))
      {
        assert rows[i..][1..] == rows[i + 1..];
        match Try(db, rows[i], world) {
          case Stopped =>
            return succeeded, stillFailing, true;
          case Recovered(next) =>
            db, succeeded := next, succeeded + 1;
          case StillFailing(next) =>
            db, stillFailing := next, stillFailing + 1;
        }
      }
      stopped := false;
    }
  }

  // --- what a retry conserves ------------------------------------------------------------

  /** From `before`, with the rows `tried` behind it: exactly the recovered ones
      are gone, each archived under its key; the others are the same rows with
      the same bytes; rows not reached are untouched. */
  ghost predicate Outcome(before: Db, db: Db, tried: set<RowKey>, recovered: set<RowKey>, cfg: Sync.Config) {
    && recovered <= tried <= before.failed.Keys
    && db.failed.Keys == before.failed.Keys - recovered
    && (forall row :: row in recovered ==>
          && Sync.KeyOf(cfg, before.failed[row].raw).Some?
          && (row.account, Sync.KeyOf(cfg, before.failed[row].raw).value) in db.messages
          && ((row.account, Sync.KeyOf(cfg, before.failed[row].raw).value), row.mailbox) in db.labels)
    && before.labels.Keys <= db.labels.Keys
    && (forall row :: row in db.failed && row in tried ==>
          before.failed[row].retries <= db.failed[row].retries <= before.failed[row].retries + 1)
    && (forall row :: row in db.failed ==> db.failed[row].raw == before.failed[row].raw)
    && (forall row :: row in db.failed && row !in tried ==> db.failed[row] == before.failed[row])
    && before.messages <= db.messages
  }

  /** The SELECT read each row once, as it is. */
  ghost predicate ReadFrom(rows: seq<FailedMessage>, db: Db) {
    && (forall i, j :: 0 <= i < j < |rows| ==> rows[i].key != rows[j].key)
    && forall m :: m in rows ==> m.key in db.failed && db.failed[m.key].raw == m.raw
  }

  ghost function KeysOf(rows: seq<FailedMessage>): set<RowKey> {
    set m | m in rows :: m.key
  }

  /** Where the pass ended: after all rows, or at one that met contention. */
  ghost predicate EndsWhere(r: Result, rows: seq<FailedMessage>, world: World) {
    var n := r.succeeded + r.stillFailing;
    if r.stopped then n < |rows| && Try(r.db, rows[n], world).Stopped? else n == |rows|
  }

  lemma {:induction false} RetryEnds(db: Db, rows: seq<FailedMessage>, world: World)
    ensures EndsWhere(RetryAll(db, rows, world), rows, world)
    decreases |rows|
  {
    if rows != [] && !Try(db, rows[0], world).Stopped? {
      RetryEnds(Try(db, rows[0], world).db, rows[1..], world);
    }
  }

  /** The rows that were recovered. */
  ghost function RecoveredOf(db: Db, rows: seq<FailedMessage>, world: World): set<RowKey>
    decreases |rows|
  {
    if rows == [] then {}
    else
      match Try(db, rows[0], world)
      case Stopped => {}
      case Recovered(next) => {rows[0].key} + RecoveredOf(next, rows[1..], world)
      case StillFailing(next) => {} + RecoveredOf(next, rows[1..], world)
  }

  lemma {:induction false} RecoveredAreCounted(db: Db, rows: seq<FailedMessage>, before: Db, world: World)
    requires ReadFrom(rows, before)
    ensures RecoveredOf(db, rows, world) <= KeysOf(rows)
    ensures |RecoveredOf(db, rows, world)| == RetryAll(db, rows, world).succeeded
    decreases |rows|
  {
    if rows != [] && !Try(db, rows[0], world).Stopped? {
      RecoveredAreCounted(Try(db, rows[0], world).db, rows[1..], before, world);
      assert rows[0].key in KeysOf(rows) && KeysOf(rows[1..]) <= KeysOf(rows);
    }
  }

  lemma KeysApart(rows: seq<FailedMessage>, before: Db, tried: set<RowKey>)
    requires rows != [] && ReadFrom(rows, before) && KeysOf(rows) !! tried
    ensures rows[0] in rows && rows[0].key !in tried
    ensures ReadFrom(rows[1..], before) && KeysOf(rows[1..]) !! tried + {rows[0].key}
  {
    assert rows[0].key in KeysOf(rows) && KeysOf(rows[1..]) <= KeysOf(rows);
  }

  /** The rows that were tried to the end, recovered or not. */
  function TriedOf(db: Db, rows: seq<FailedMessage>, world: World): set<RowKey>
    decreases |rows|
  {
    if rows == [] then {}
    else
      match Try(db, rows[0], world)
      case Stopped => {}
      case Recovered(next) => {rows[0].key} + TriedOf(next, rows[1..], world)
      case StillFailing(next) => {rows[0].key} + TriedOf(next, rows[1..], world)
  }

  lemma {:induction false} TriedIsPrefix(db: Db, rows: seq<FailedMessage>, world: World)
    ensures var r := RetryAll(db, rows, world);
            var n := r.succeeded + r.stillFailing;
            n <= |rows| && TriedOf(db, rows, world) == KeysOf(rows[..n])
    decreases |rows|
  {
    if rows != [] && !Try(db, rows[0], world).Stopped? {
      var next := Try(db, rows[0], world).db;
      TriedIsPrefix(next, rows[1..], world);
      var rest := RetryAll(next, rows[1..], world);
      var n := rest.succeeded + rest.stillFailing;
      assert TriedOf(db, rows, world) == {rows[0].key} + KeysOf(rows[1..][..n]);
      FirstKey(rows, n);
    }
  }

  lemma FirstKey(rows: seq<FailedMessage>, n: nat)
    requires n < |rows|
    ensures KeysOf(rows[..n + 1]) == {rows[0].key} + KeysOf(rows[1..][..n])
  {
    assert rows[..n + 1] == [rows[0]] + rows[1..][..n];
  }

  lemma OutcomeInTurn(before: Db, db: Db, tried: set<RowKey>, recovered: set<RowKey>, key: RowKey, gone: bool,
                      laterTried: set<RowKey>, laterRecovered: set<RowKey>, cfg: Sync.Config)
    requires Outcome(before, db, tried + {key} + laterTried,
                     (if gone then recovered + {key} else recovered) + laterRecovered, cfg)
    ensures Outcome(before, db, tried + ({key} + laterTried),
                    recovered + ((if gone then {key} else {}) + laterRecovered), cfg)
  {
    assert tried + {key} + laterTried == tried + ({key} + laterTried);
    assert (if gone then recovered + {key} else recovered) + laterRecovered
           == recovered + ((if gone then {key} else {}) + laterRecovered);
  }

  lemma {:induction false} RetryFrom(before: Db, db: Db, tried: set<RowKey>, recovered: set<RowKey>,
                                     rows: seq<FailedMessage>, world: World)
    requires Outcome(before, db, tried, recovered, world.cfg)
    requires ReadFrom(rows, before) && KeysOf(rows) !! tried
    ensures Outcome(before, RetryAll(db, rows, world).db, tried + TriedOf(db, rows, world),
                    recovered + RecoveredOf(db, rows, world), world.cfg)
    decreases |rows|
  {
    if rows == [] || Try(db, rows[0], world).Stopped? {
      assert tried + {} == tried && recovered + {} == recovered;
    } else {
      var key := rows[0].key;
      var t := Try(db, rows[0], world);
      var recovered' := if t.Recovered? then recovered + {key} else recovered;
      KeysApart(rows, before, tried);
      OneOutcome(before, db, tried, recovered, rows[0], world);
      RetryFrom(before, t.db, tried + {key}, recovered', rows[1..], world);
      OutcomeInTurn(before, RetryAll(t.db, rows[1..], world).db, tried, recovered, key, t.Recovered?,
                    TriedOf(t.db, rows[1..], world), RecoveredOf(t.db, rows[1..], world), world.cfg);
    }
  }

  lemma OneOutcome(before: Db, db: Db, tried: set<RowKey>, recovered: set<RowKey>, m: FailedMessage, world: World)
    requires Outcome(before, db, tried, recovered, world.cfg)
    requires m.key in before.failed && before.failed[m.key].raw == m.raw && m.key !in tried
    requires !Try(db, m, world).Stopped?
    ensures var t := Try(db, m, world);
            Outcome(before, t.db, tried + {m.key}, if t.Recovered? then recovered + {m.key} else recovered, world.cfg)
  {
  }

  /** Of the rows read, exactly the recovered ones are gone, counted by
      `succeeded`, and the pass ends early only where a row met contention. */
  lemma RetryConserves(db: Db, rows: seq<FailedMessage>, world: World)
    requires ReadFrom(rows, db)
    ensures EndsWhere(RetryAll(db, rows, world), rows, world)
    ensures |RecoveredOf(db, rows, world)| == RetryAll(db, rows, world).succeeded
    ensures var r := RetryAll(db, rows, world);
            var n := r.succeeded + r.stillFailing;
            n <= |rows| && Outcome(db, r.db, KeysOf(rows[..n]), RecoveredOf(db, rows, world), world.cfg)
  {
    RetryEnds(db, rows, world);
    RecoveredAreCounted(db, rows, db, world);
    assert Outcome(db, db, {}, {}, world.cfg);
    RetryFrom(db, db, {}, {}, rows, world);
    TriedIsPrefix(db, rows, world);
    assert {} + TriedOf(db, rows, world) == TriedOf(db, rows, world);
    assert {} + RecoveredOf(db, rows, world) == RecoveredOf(db, rows, world);
  }

  /** Which rows recover. Of an archive account: each that was reached, whose
      message parses, and which the database takes. */
  lemma {:induction false} ArchiveRowsRecover(db: Db, rows: seq<FailedMessage>, before: Db, world: World, i: nat)
    requires ReadFrom(rows, before)
    requires var r := RetryAll(db, rows, world); i < r.succeeded + r.stillFailing && i < |rows|
    requires world.auth(rows[i].key.account).Archive?
    ensures rows[i].key in RecoveredOf(db, rows, world)
            <==> Sync.KeyOf(world.cfg, rows[i].raw).Some? && world.faults(rows[i].key).storing.NoFault?
    decreases |rows|
  {
    var m := rows[0];
    var t := Try(db, m, world);
    RecoveredAreCounted(t.db, rows[1..], before, world);
    if i == 0 {
      ArchiveRetriesNeverCollide(db, m, world.faults(m.key), world.cfg);
    } else {
      assert rows[1..][i - 1] == rows[i];
      assert rows[i].key != m.key;
      ArchiveRowsRecover(t.db, rows[1..], before, world, i - 1);
    }
  }

  /** A freshly allocated UID is above every label, so an archive account's retry
      never violates UNIQUE (mailbox, uid): it recovers whenever the message
      parses and the database takes it. */
  lemma ArchiveRetriesNeverCollide(db: Db, m: FailedMessage, faults: Faults, cfg: Sync.Config)
    ensures forall message :: !UidTaken(db, message, m.key.mailbox, AttemptUid(db, m.key, Archive))
    ensures RetryOne(db, m, Archive, faults, cfg).Recovered?
            <==> Sync.KeyOf(cfg, m.raw).Some? && faults.storing.NoFault?
  {
    var row := m.key;
    forall l | l in db.labels && l.1 == row.mailbox ensures db.labels[l] < AttemptUid(db, row, Archive) {
      assert db.labels[l] in UidsIn(db.labels, row.mailbox);
    }
  }

  ghost predicate UniqueUids(db: Db) {
    forall l, k :: l in db.labels && k in db.labels && l.1 == k.1 && db.labels[l] == db.labels[k] ==> l == k
  }

  ghost predicate OneRowPerMessage(db: Db) {
    NoDuplicates(db.messages)
  }

  /** Whatever the account, a retry keeps both unique constraints. */
  lemma RetryKeepsConstraints(db: Db, m: FailedMessage, auth: AuthMethod, faults: Faults, cfg: Sync.Config)
    requires UniqueUids(db) && OneRowPerMessage(db)
    requires RetryOne(db, m, auth, faults, cfg).Recovered?
    ensures var next := RetryOne(db, m, auth, faults, cfg).db;
            UniqueUids(next) && OneRowPerMessage(next)
  {
    var message := (m.key.account, Sync.KeyOf(cfg, m.raw).value);
    assert !UidTaken(db, message, m.key.mailbox, AttemptUid(db, m.key, auth));
  }
}
