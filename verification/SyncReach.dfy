/** Which states the disciplined runs of a sync reach, and runs in which passes
    meet one message and give up on it. */
module SyncReach {
  import opened Prelude
  import opened Uids
  import opened FetchRetry
  import opened Sync
  import opened SyncRun

  // --- reaching a state -----------------------------------------------------------------

  ghost predicate Reachable(s: State, t: State, cfg: Config) {
    exists es :: Legal(s, es, cfg) && DisciplinedRun(s, es, cfg) && Run(s, es, cfg) == t
  }

  lemma ReachesItself(s: State, cfg: Config)
    ensures Reachable(s, s, cfg)
  {
    assert Legal(s, [], cfg) && DisciplinedRun(s, [], cfg) && Run(s, [], cfg) == s;
  }

  lemma {:induction false} RunSnoc(s: State, es: seq<Event>, e: Event, cfg: Config)
    requires Legal(s, es, cfg) && DisciplinedRun(s, es, cfg)
    requires Enabled(Run(s, es, cfg), e) && Disciplined(Run(s, es, cfg), e)
    ensures Legal(s, es + [e], cfg) && DisciplinedRun(s, es + [e], cfg)
    ensures Run(s, es + [e], cfg) == Apply(Run(s, es, cfg), e, cfg)
    decreases |es|
  {
    if es == [] {
      assert [e][1..] == [] && es + [e] == [e];
    } else {
      assert (es + [e])[0] == es[0] && (es + [e])[1..] == es[1..] + [e];
      RunSnoc(Apply(s, es[0], cfg), es[1..], e, cfg);
    }
  }

  lemma ReachesNext(s: State, t: State, e: Event, cfg: Config)
    requires Reachable(s, t, cfg) && Enabled(t, e) && Disciplined(t, e)
    ensures Reachable(s, Apply(t, e, cfg), cfg)
  {
    var es :| Legal(s, es, cfg) && DisciplinedRun(s, es, cfg) && Run(s, es, cfg) == t;
    RunSnoc(s, es, e, cfg);
  }

  lemma ReachesDeliver(s: State, t: State, uid: Uid, raw: Bytes, cfg: Config)
    requires Reachable(s, t, cfg) && t.server.next <= uid
    ensures Reachable(s, ApplyDeliver(t, uid, raw), cfg)
  {
    ReachesNext(s, t, Deliver(uid, raw), cfg);
  }

  lemma ReachesOpen(s: State, t: State, p: PassId, cfg: Config)
    requires Reachable(s, t, cfg) && p !in t.passes
    ensures Reachable(s, ApplyOpen(t, p), cfg)
  {
    ReachesNext(s, t, Open(p), cfg);
  }

  lemma ReachesSelect(s: State, t: State, p: PassId, names: bool, cfg: Config)
    requires Reachable(s, t, cfg) && p in t.passes && t.passes[p].Opened? && (t.server.announces ==> names)
    requires RowCurrent(t.passes[p].row, t.db, t.server.validity)
    ensures Reachable(s, ApplySelect(t, p, names), cfg)
  {
    ReachesNext(s, t, Select(p, names), cfg);
  }

  lemma ReachesSearch(s: State, t: State, p: PassId, now: Time, cfg: Config)
    requires Reachable(s, t, cfg) && p in t.passes && t.passes[p].AfterSelect?
    ensures Reachable(s, ApplySearch(t, p, None, now), cfg)
  {
    ReachesNext(s, t, Search(p, None, now), cfg);
  }

  lemma ReachesBatch(s: State, t: State, p: PassId, answers: Uid -> Answer, cfg: Config)
    requires Reachable(s, t, cfg) && Enabled(t, RunBatch(p, answers))
    ensures Reachable(s, ApplyBatch(t, p, answers, cfg), cfg)
  {
    ReachesNext(s, t, RunBatch(p, answers), cfg);
  }

  /** No disciplined continuation of `s` ever loses mail of its numbering. */
  ghost predicate SafeForever(s: State, cfg: Config) {
    forall es :: Legal(s, es, cfg) && DisciplinedRun(s, es, cfg)
      ==> NoSilentLoss(Run(s, es, cfg), cfg) || !Current(Run(s, es, cfg))
  }

  lemma LossIsReached(s: State, t: State, cfg: Config)
    requires Reachable(s, t, cfg) && Current(t) && !NoSilentLoss(t, cfg)
    ensures !SafeForever(s, cfg)
  {
  }

  lemma SafeIfSound(s: State, cfg: Config)
    requires Invariant(s, cfg)
    ensures SafeForever(s, cfg)
  {
    forall es | Legal(s, es, cfg) && DisciplinedRun(s, es, cfg) ensures NoSilentLoss(Run(s, es, cfg), cfg) {
      RunOk(s, es, cfg);
    }
  }

  // --- passes that meet one message -------------------------------------------------------

  lemma ListsOnly(row: MailboxRow, validity: nat, present: set<Uid>, first: Uid)
    requires first in present && (FullSync(row, validity) || StoredUidnext(row) <= first)
    requires forall u :: u in present && u != first ==> !FullSync(row, validity) && u < StoredUidnext(row)
    ensures Candidates(row, validity, present) == [first]
  {
    var c := Candidates(row, validity, present);
    assert first in c;
    assert c[0] in c && c[|c| - 1] in c;
  }

  lemma OneUidChunk(w: Work, uid: Uid, answers: Uid -> Answer, now: Time, cfg: Config)
    ensures ProcessChunk(w, [uid], answers, now, cfg) == ProcessUid(w, uid, answers(uid), now, cfg)
  {
    assert [uid][1..] == [];
  }

  /** The body is empty. The message is there or not; the rows are stamped `at`. */
  function NoBody(present: bool, at: Time): Uid -> Answer {
    (u: Uid) => Answer(None, present, true, true, NoFault, NoFault, at)
  }

  /** A pass whose last UID has no body. */
  lemma LastUidBatch(t: State, p: PassId, uid: Uid, answers: Uid -> Answer, cfg: Config)
    requires p in t.passes && t.passes[p].Fetching? && t.passes[p].scan.todo == [uid]
    requires !HasBody(answers(uid))
    ensures var scan := t.passes[p].scan;
            var w := OnEmptyBody(OpenBatch(t.db, scan), uid, answers(uid), scan.now, cfg);
            ApplyBatch(t, p, answers, cfg)
            == State(Checkpoint(w, t.server.validity), t.server, Learn(t.ledger, w.log), t.passes - {p})
  {
    var scan := t.passes[p].scan;
    assert FirstBatch([uid]) == [uid] && scan.todo[1..] == [];
    OneUidChunk(OpenBatch(t.db, scan), uid, answers, scan.now, cfg);
  }

  /** Pass `p` about to fetch `uid`, nothing held so far. */
  ghost predicate AboutToFetch(t: State, p: PassId, uid: Uid, seed: nat, now: Time) {
    && p in t.passes
    && t.passes[p] == Fetching(Scan([uid], seed, None, t.db.holds.Keys, false, now))
  }

  // --- giving up on a message --------------------------------------------------------------

  /** The numbering's first message, which nothing has recorded, and its archive. */
  ghost predicate Unsynced(t: State, first: Uid, db: Db) {
    && t.server.delivered.Keys == {first} && t.server.present == {first} && 1 <= first < t.server.next
    && t.db.messages == db.messages && t.db.failed == db.failed && t.ledger == Ledger({}, {}, {})
  }

  /** The first message held, or given up on at once: no window at all. */
  ghost predicate HeldBack(t: State, first: Uid, db: Db, cfg: Config) {
    && Unsynced(t, first, db) && Current(t) && t.db.uidnext.Some?
    && if cfg.maxHold <= 0 then GivenUpRow(t, first)
       else t.db.holds == map[first := Hold(1, 0, None)] && t.db.uidnext.value <= first
  }

  ghost predicate GivenUpRow(t: State, first: Uid) {
    t.db.holds.Keys == {first} && Tombstoned(t.db.holds, first) && t.db.uidnext == Some(first + 1)
  }

  lemma HoldTurn(w: Work, uid: Uid, cfg: Config)
    requires w.db.holds == map[] && w.holdAt.None? && w.log == EMPTY_LOG && w.highestSeen <= uid
    ensures var w' := OnEmptyBody(w, uid, NoBody(true, 0)(uid), 0, cfg);
            && w'.log == EMPTY_LOG
            && (cfg.maxHold <= 0 ==>
                  && w'.highestSeen == uid && w'.holdAt.None?
                  && w'.db == w.db.(holds := map[uid := Hold(1, 0, Some(0))]))
            && (cfg.maxHold > 0 ==>
                  && w'.highestSeen == w.highestSeen && w'.holdAt == Some(uid)
                  && w'.db == w.db.(holds := map[uid := Hold(1, 0, None)]))
  {
  }

  /** The batch that meets the empty body for the first time. */
  lemma FirstSightingBatch(t: State, p: PassId, first: Uid, db: Db, seed: nat, cfg: Config)
    requires AboutToFetch(t, p, first, seed, 0) && Unsynced(t, first, db) && t.db.holds == map[] && seed <= first
    ensures Enabled(t, RunBatch(p, NoBody(true, 0)))
    ensures var t1 := ApplyBatch(t, p, NoBody(true, 0), cfg);
            HeldBack(t1, first, db, cfg) && t1.server == t.server && t1.passes == t.passes - {p}
  {
    var answers := NoBody(true, 0);
    LastUidBatch(t, p, first, answers, cfg);
    HoldTurn(OpenBatch(t.db, t.passes[p].scan), first, cfg);
    assert FirstBatch([first]) == [first];
    assert t.ledger.absent + {} == t.ledger.absent && t.ledger.errors + {} == t.ledger.errors;
    var w := OnEmptyBody(OpenBatch(t.db, t.passes[p].scan), first, answers(first), 0, cfg);
    assert Checkpoint(w, t.server.validity).holds == w.db.holds;
  }

  /** The batch of a pass a whole window later. */
  lemma ExpiredBatch(t: State, p: PassId, first: Uid, db: Db, seed: nat, cfg: Config)
    requires AboutToFetch(t, p, first, seed, cfg.maxHold) && Unsynced(t, first, db) && seed <= first
    requires cfg.maxHold > 0 && t.db.holds == map[first := Hold(1, 0, None)]
    ensures Enabled(t, RunBatch(p, NoBody(true, cfg.maxHold)))
    ensures var t1 := ApplyBatch(t, p, NoBody(true, cfg.maxHold), cfg);
            && Unsynced(t1, first, db) && Current(t1) && GivenUpRow(t1, first)
            && t1.server == t.server && t1.passes == t.passes - {p}
  {
    var answers := NoBody(true, cfg.maxHold);
    LastUidBatch(t, p, first, answers, cfg);
    assert FirstBatch([first]) == [first];
    assert t.ledger.absent + {} == t.ledger.absent && t.ledger.errors + {} == t.ledger.errors;
    var w := OnEmptyBody(OpenBatch(t.db, t.passes[p].scan), first, answers(first), cfg.maxHold, cfg);
  }

  /** A pass selects and lists the one message there is. */
  lemma ReachesFetch(s: State, t: State, p: PassId, first: Uid, now: Time, cfg: Config) returns (t2: State)
    requires Reachable(s, t, cfg) && p in t.passes && t.passes[p].Opened?
    requires t.server.delivered.Keys == {first} && t.server.present == {first}
    requires var row := t.passes[p].row;
             && RowCurrent(row, t.db, t.server.validity)
             && (FullSync(row, t.server.validity) || StoredUidnext(row) <= first)
    ensures Reachable(s, t2, cfg)
    ensures var row := t.passes[p].row;
            && AboutToFetch(t2, p, first, StoredUidnext(row) - 1, now)
            && t2.db == SelectDb(t.db, row, t.server.validity)
    ensures t2.server == t.server && t2.ledger == t.ledger && t2.passes - {p} == t.passes - {p}
  {
    var row := t.passes[p].row;
    ReachesSelect(s, t, p, true, cfg);
    var t1 := ApplySelect(t, p, true);
    ListsOnly(row, t.server.validity, t.server.present, first);
    ReachesSearch(s, t1, p, now, cfg);
    t2 := ApplySearch(t1, p, None, now);
    assert t1.passes - {p} == t.passes - {p};
  }

  /** A row read in this numbering, or one a full resync may act on. */
  ghost predicate Selectable(t: State, row: MailboxRow, first: Uid) {
    && (FullSync(row, t.server.validity) || StoredUidnext(row) <= first)
    && StoredUidnext(row) <= first + 1
    && RowCurrent(row, t.db, t.server.validity)
    && SelectDb(t.db, row, t.server.validity).holds == map[]
  }

  /** A pass that selects on `row` and meets the message for the first time. */
  lemma FirstPass(s: State, t: State, p: PassId, first: Uid, db: Db, cfg: Config) returns (t3: State)
    requires Reachable(s, t, cfg) && Unsynced(t, first, db)
    requires p in t.passes && t.passes[p].Opened? && Selectable(t, t.passes[p].row, first)
    ensures Reachable(s, t3, cfg) && HeldBack(t3, first, db, cfg)
    ensures t3.server == t.server && t3.passes == t.passes - {p}
  {
    var t2 := ReachesFetch(s, t, p, first, 0, cfg);
    FirstSightingBatch(t2, p, first, db, StoredUidnext(t.passes[p].row) - 1, cfg);
    ReachesBatch(s, t2, p, NoBody(true, 0), cfg);
    t3 := ApplyBatch(t2, p, NoBody(true, 0), cfg);
  }

  /** And one a whole window later, on the row as it is then. */
  lemma SecondPass(s: State, t: State, p: PassId, first: Uid, db: Db, cfg: Config) returns (t4: State)
    requires Reachable(s, t, cfg) && HeldBack(t, first, db, cfg) && p !in t.passes && cfg.maxHold > 0
    ensures Reachable(s, t4, cfg) && Unsynced(t4, first, db) && Current(t4) && GivenUpRow(t4, first)
    ensures t4.server == t.server && t4.passes == t.passes
  {
    ReachesOpen(s, t, p, cfg);
    var t1 := ApplyOpen(t, p);
    var t3 := ReachesFetch(s, t1, p, first, cfg.maxHold, cfg);
    assert t1.passes - {p} == t.passes;
    ExpiredBatch(t3, p, first, db, StoredUidnext(StoredRow(t.db)) - 1, cfg);
    ReachesBatch(s, t3, p, NoBody(true, cfg.maxHold), cfg);
    t4 := ApplyBatch(t3, p, NoBody(true, cfg.maxHold), cfg);
  }

  /** Pass `p`, and where there is a window pass `q` after it, give up on the message. */
  lemma ReachesGivenUp(s: State, t: State, p: PassId, q: PassId, first: Uid, db: Db, cfg: Config)
    returns (g: State)
    requires Reachable(s, t, cfg) && Unsynced(t, first, db) && q !in t.passes
    requires p in t.passes && t.passes[p].Opened? && Selectable(t, t.passes[p].row, first)
    ensures Reachable(s, g, cfg) && Unsynced(g, first, db) && Current(g) && GivenUpRow(g, first)
    ensures g.server == t.server && g.passes == t.passes - {p}
  {
    g := FirstPass(s, t, p, first, db, cfg);
    if cfg.maxHold > 0 {
      g := SecondPass(s, g, q, first, db, cfg);
    }
  }

  /** Mail the archive does not have yet. */
  ghost predicate IsNews(db: Db, uid: Uid, raw: Bytes, cfg: Config) {
    && (KeyOf(cfg, raw).Some? ==> KeyOf(cfg, raw).value !in db.messages)
    && !(uid in db.failed && db.failed[uid] == raw)
  }
}
