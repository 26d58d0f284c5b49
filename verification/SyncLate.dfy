/** Commits in hand when the numbering changes: each of them can lose mail. */
module SyncLate {
  import opened Prelude
  import opened Uids
  import opened FetchRetry
  import opened Sync
  import opened SyncRun
  import opened SyncReach

  /** Pass `p` still has a commit of the numbering of `known` in hand. */
  ghost predicate HeldOver(t: State, known: Server, p: PassId) {
    && p in t.passes && t.passes[p].Late? && t.passes[p].known == known
    && known.validity < t.server.validity
    && (t.passes[p].pending.ToClear? ==>
          FullSync(t.passes[p].pending.cleared, known.validity) && t.passes[p].pending.cleared.uidvalidity.Some?)
  }

  lemma {:induction false} NoBodyChunk(w: Work, chunk: seq<Uid>, at: Time, now: Time, cfg: Config)
    ensures var r := ProcessChunk(w, chunk, NoBody(true, at), now, cfg);
            && r.Some? && r.value.db.messages == w.db.messages && r.value.db.failed == w.db.failed
            && r.value.db.uidvalidity == w.db.uidvalidity
    decreases |chunk|
  {
    if chunk != [] {
      NoBodyChunk(ProcessUid(w, chunk[0], NoBody(true, at)(chunk[0]), now, cfg).value, chunk[1..], at, now, cfg);
    }
  }

  /** Whatever is in hand, committing it can leave the archive and the poison
      pills as they are, and either drops the hold rows or brings the old
      UIDVALIDITY back. */
  lemma LateCommit(t: State, known: Server, p: PassId, cfg: Config) returns (e: Event)
    requires HeldOver(t, known, p)
    ensures Enabled(t, e) && Disciplined(t, e)
    ensures var t1 := Apply(t, e, cfg);
            && t1.server == t.server && t1.ledger == t.ledger && t1.passes == t.passes - {p}
            && t1.db.messages == t.db.messages && t1.db.failed == t.db.failed
            && ((t1.db.uidvalidity == t.db.uidvalidity && t1.db.uidnext == t.db.uidnext && t1.db.holds == map[])
                || t1.db.uidvalidity == Some(known.validity))
  {
    match t.passes[p].pending
    case ToStore(scan) =>
      e := CommitLate(p, NoBody(true, scan.now));
      NoBodyChunk(OpenBatch(t.db, scan), FirstBatch(scan.todo), scan.now, scan.now, cfg);
    case _ =>
      e := CommitLate(p, NoBody(true, 0));
  }

  /** Given up on in the new numbering, with its tombstone the only record. */
  ghost predicate OnlyRecord(t: State, first: Uid, db: Db) {
    && Unsynced(t, first, db) && Current(t) && GivenUpRow(t, first) && t.server.next == first + 1
  }

  ghost predicate Unrecorded(t: State, first: Uid, db: Db) {
    && Unsynced(t, first, db) && t.db.holds == map[]
  }

  lemma UnrecordedIsLost(s: State, t: State, first: Uid, db: Db, cfg: Config)
    requires Reachable(s, t, cfg) && Unrecorded(t, first, db) && Current(t) && t.db.uidnext == Some(first + 1)
    requires IsNews(db, first, t.server.delivered[first], cfg)
    ensures !SafeForever(s, cfg)
  {
    assert !Accounted(t.db, t.server, t.ledger, first, cfg);
    LossIsReached(s, t, cfg);
  }

  /** The old UIDVALIDITY is back: a pass that reads it drops the hold rows and
      dies, and one that read the row before finds nothing new. */
  lemma OldValidityLoses(s: State, t: State, known: Server, d: PassId, c: PassId, first: Uid, db: Db, cfg: Config)
    requires Reachable(s, t, cfg) && Unsynced(t, first, db) && t.server.next == first + 1
    requires t.db.uidvalidity == Some(known.validity) && known.validity < t.server.validity
    requires d in t.passes && c !in t.passes
    requires t.passes[d] == Opened(MailboxRow(Some(t.server.validity), Some(first + 1)))
    requires IsNews(db, first, t.server.delivered[first], cfg)
    ensures !SafeForever(s, cfg)
  {
    ReachesOpen(s, t, c, cfg);
    var t1 := ApplyOpen(t, c);
    ReachesSelect(s, t1, c, true, cfg);
    var t2 := ApplySelect(t1, c, true);
    var t3 := Apply(t2, Die(c), cfg);
    ReachesNext(s, t2, Die(c), cfg);
    assert Unrecorded(t3, first, db) && t3.passes[d] == t.passes[d];
    NothingNewLoses(s, t3, d, first, db, cfg);
  }

  lemma NothingNewLoses(s: State, t: State, d: PassId, first: Uid, db: Db, cfg: Config)
    requires Reachable(s, t, cfg) && Unrecorded(t, first, db) && t.server.next == first + 1
    requires d in t.passes && t.passes[d] == Opened(MailboxRow(Some(t.server.validity), Some(first + 1)))
    requires IsNews(db, first, t.server.delivered[first], cfg)
    ensures !SafeForever(s, cfg)
  {
    var row := t.passes[d].row;
    ReachesSelect(s, t, d, true, cfg);
    var t1 := ApplySelect(t, d, true);
    assert Candidates(row, t.server.validity, t.server.present) == [];
    assert Unlisted(t.server, row) == {};
    ReachesSearch(s, t1, d, 0, cfg);
    var t2 := ApplySearch(t1, d, None, 0);
    assert t2.ledger == t.ledger;
    UnrecordedIsLost(s, t2, first, db, cfg);
  }

  lemma LateCommitAfterGiveUp(s: State, g: State, known: Server, p: PassId, spare: PassId, first: Uid, db: Db,
                              cfg: Config)
    requires Reachable(s, g, cfg) && OnlyRecord(g, first, db) && HeldOver(g, known, p)
    requires (forall q :: q in g.passes ==> q < spare) && IsNews(db, first, g.server.delivered[first], cfg)
    ensures !SafeForever(s, cfg)
  {
    ReachesOpen(s, g, spare, cfg);
    var t1 := ApplyOpen(g, spare);
    var e := LateCommit(t1, known, p, cfg);
    var t2 := Apply(t1, e, cfg);
    ReachesNext(s, t1, e, cfg);
    if t2.db.uidvalidity == Some(known.validity) {
      OldValidityLoses(s, t2, known, spare, spare + 1, first, db, cfg);
    } else {
      UnrecordedIsLost(s, t2, first, db, cfg);
    }
  }

  /** The losing run: the new numbering's first message is given up on, and then
      the commit in hand of the old one is made. */
  lemma LateCommitLoses(t: State, known: Server, p: PassId, spare: PassId, raw: Bytes, cfg: Config)
    requires HeldOver(t, known, p) && forall q :: q in t.passes ==> q < spare
    requires t.server.delivered == map[] && t.server.present == {} && 1 <= t.server.next
    requires t.ledger == Ledger({}, {}, {}) && IsNews(t.db, t.server.next, raw, cfg)
    requires t.db.uidvalidity != Some(t.server.validity) && (t.db.uidvalidity.None? ==> t.db.holds == map[])
    requires StoredUidnext(StoredRow(t.db)) <= t.server.next + 1
    ensures !SafeForever(t, cfg)
  {
    var first := t.server.next;
    ReachesItself(t, cfg);
    ReachesDeliver(t, t, first, raw, cfg);
    var t1 := ApplyDeliver(t, first, raw);
    ReachesOpen(t, t1, spare, cfg);
    var t2 := ApplyOpen(t1, spare);
    var g := ReachesGivenUp(t, t2, spare, spare + 1, first, t.db, cfg);
    assert t2.passes - {spare} == t.passes;
    LateCommitAfterGiveUp(t, g, known, p, spare, first, t.db, cfg);
  }
}
