/** The conditions of a disciplined run, each shown to be exactly what the code
    needs: where it fails, some run loses mail without a record, or takes the
    hold rows of one numbering for those of another. */
module SyncExact {
  import opened Prelude
  import opened Uids
  import opened FetchRetry
  import opened Sync
  import opened SyncRun
  import opened SyncReach
  import opened SyncLate

  // --- a changed UIDVALIDITY: the rows -----------------------------------------------------

  /** A new numbering nobody has synced, and a pass with a row of an older one. */
  ghost predicate Renumbered(t: State, p: PassId) {
    && t.server.delivered == map[] && t.server.present == {} && 1 <= t.server.next
    && t.ledger == Ledger({}, {}, {})
    && (t.db.uidvalidity.Some? ==> t.db.uidvalidity.value < t.server.validity)
    && p in t.passes && t.passes[p].Opened?
    && var row := t.passes[p].row;
       row.uidvalidity.Some? && row.uidvalidity.value < t.server.validity
  }

  /** The row's watermark is above what the new numbering starts with. */
  predicate CarriesTooFar(server: Server, row: MailboxRow) {
    row.uidnext.Some? && server.next + Slack(server) < row.uidnext.value
  }

  lemma CarriedWatermarkLoses(s: State, t: State, p: PassId, raw: Bytes, cfg: Config)
    requires Reachable(s, t, cfg) && Renumbered(t, p) && CarriesTooFar(t.server, t.passes[p].row)
    requires IsNews(t.db, t.server.next + Slack(t.server), raw, cfg)
    ensures !SafeForever(s, cfg)
  {
    if t.server.announces {
      ListingPassLoses(s, t, p, raw, cfg);
    } else {
      EmptyPassLoses(s, t, p, raw, cfg);
    }
  }

  /** `t` after a pass that stored the watermark of `row` under the new numbering. */
  ghost predicate Carried(t: State, row: MailboxRow, db: Db) {
    && Current(t) && t.db.uidnext == row.uidnext && t.db.holds == map[]
    && t.db.messages == db.messages && t.db.failed == db.failed
  }

  /** Then the next message is below the watermark it never had. */
  lemma NextMessageIsLost(s: State, t: State, row: MailboxRow, db: Db, raw: Bytes, cfg: Config)
    requires Reachable(s, t, cfg) && Carried(t, row, db)
    requires row.uidnext.Some? && t.server.next < row.uidnext.value && IsNews(db, t.server.next, raw, cfg)
    requires t.server.next !in t.ledger.absent + t.ledger.errors + t.ledger.forgotten
    ensures !SafeForever(s, cfg)
  {
    ReachesDeliver(s, t, t.server.next, raw, cfg);
    var t' := ApplyDeliver(t, t.server.next, raw);
    assert !Accounted(t'.db, t'.server, t'.ledger, t.server.next, cfg);
    LossIsReached(s, t', cfg);
  }

  /** A pass over the still empty mailbox of a server that names no UIDNEXT
      stores the old watermark as it is. */
  lemma EmptyPassLoses(s: State, t: State, p: PassId, raw: Bytes, cfg: Config)
    requires Reachable(s, t, cfg) && Renumbered(t, p)
    requires CarriesTooFar(t.server, t.passes[p].row) && !t.server.announces
    requires IsNews(t.db, t.server.next, raw, cfg)
    ensures !SafeForever(s, cfg)
  {
    var row := t.passes[p].row;
    ReachesSelect(s, t, p, false, cfg);
    var t1 := ApplySelect(t, p, false);
    assert Candidates(row, t.server.validity, {}) == [];
    ReachesSearch(s, t1, p, 0, cfg);
    var t2 := ApplySearch(t1, p, None, 0);
    NextMessageIsLost(s, t2, row, t.db, raw, cfg);
  }

  /** A pass that lists the first message starts `highest_seen` from the old
      watermark. The message expunged before the FETCH, its checkpoint is one
      past that. */
  lemma ListingPassLoses(s: State, t: State, p: PassId, raw: Bytes, cfg: Config)
    requires Reachable(s, t, cfg) && Renumbered(t, p)
    requires CarriesTooFar(t.server, t.passes[p].row) && t.server.announces
    requires IsNews(t.db, t.server.next + 1, raw, cfg)
    ensures !SafeForever(s, cfg)
  {
    var row, first := t.passes[p].row, t.server.next;
    ReachesDeliver(s, t, first, raw, cfg);
    var t1 := ApplyDeliver(t, first, raw);
    var t3 := ReachesFetch(s, t1, p, first, 0, cfg);
    assert StoredUidnext(row) == row.uidnext.value;
    ExpungedBatchLoses(s, t3, p, first, row, t.db, raw, cfg);
  }

  lemma ExpungedBatchLoses(s: State, t: State, p: PassId, first: Uid, row: MailboxRow, db: Db, raw: Bytes,
                           cfg: Config)
    requires Reachable(s, t, cfg) && row.uidnext.Some? && first + 1 < row.uidnext.value
    requires AboutToFetch(t, p, first, row.uidnext.value - 1, 0) && Unsynced(t, first, db) && t.db.holds == map[]
    requires t.server.next == first + 1 && IsNews(db, first + 1, raw, cfg)
    ensures !SafeForever(s, cfg)
  {
    ReachesNext(s, t, Expunge(first), cfg);
    var t1 := t.(server := t.server.(present := {}));
    ExpungedBatch(t1, p, first, row, db, cfg);
    ReachesBatch(s, t1, p, NoBody(false, 0), cfg);
    NextMessageIsLost(s, ApplyBatch(t1, p, NoBody(false, 0), cfg), row, db, raw, cfg);
  }

  lemma ExpungedTurn(w: Work, uid: Uid, cfg: Config)
    requires !w.emptying && w.log == EMPTY_LOG && uid <= w.highestSeen
    ensures OnEmptyBody(w, uid, NoBody(false, 0)(uid), 0, cfg) == w.(log := Log({uid}, {}))
  {
  }

  lemma ExpungedBatch(t: State, p: PassId, first: Uid, row: MailboxRow, db: Db, cfg: Config)
    requires row.uidnext.Some? && first + 1 < row.uidnext.value
    requires AboutToFetch(t, p, first, row.uidnext.value - 1, 0) && t.db.holds == map[]
    requires t.db.messages == db.messages && t.db.failed == db.failed && t.ledger == Ledger({}, {}, {})
    requires t.server.present == {}
    ensures Enabled(t, RunBatch(p, NoBody(false, 0)))
    ensures var t1 := ApplyBatch(t, p, NoBody(false, 0), cfg);
            Carried(t1, row, db) && t1.server == t.server && t1.ledger == Ledger({first}, {}, {})
  {
    LastUidBatch(t, p, first, NoBody(false, 0), cfg);
    ExpungedTurn(OpenBatch(t.db, t.passes[p].scan), first, cfg);
    assert FirstBatch([first]) == [first];
  }

  /** Every watermark that is stored, or that a pass has read, is at or below the
      new numbering's first UID, or one above it where SELECT names UIDNEXT. */
  ghost predicate RowsBelow(s: State, base: Uid) {
    && BaseOk(s.server, StoredRow(s.db), base)
    && forall p :: p in s.passes && s.passes[p].Opened? ==> BaseOk(s.server, s.passes[p].row, base)
  }

  lemma DisciplinedRenumberIsSafe(s: State, validity: nat, base: Uid, cfg: Config)
    requires Invariant(s, cfg) && Enabled(s, Renumber(validity, base, {})) && RowsBelow(s, base)
    ensures SafeForever(Apply(s, Renumber(validity, base, {}), cfg), cfg)
  {
    StepOk(s, Renumber(validity, base, {}), cfg);
    SafeIfSound(Apply(s, Renumber(validity, base, {}), cfg), cfg);
  }

  lemma StoredRowLoses(s: State, validity: nat, base: Uid, inFlight: set<PassId>, spare: PassId, raw: Bytes,
                       cfg: Config)
    requires Invariant(s, cfg) && Enabled(s, Renumber(validity, base, inFlight)) && spare !in s.passes
    requires !BaseOk(s.server, StoredRow(s.db), base) && IsNews(s.db, base + Slack(s.server), raw, cfg)
    ensures !SafeForever(Apply(s, Renumber(validity, base, inFlight), cfg), cfg)
  {
    var t := Apply(s, Renumber(validity, base, inFlight), cfg);
    ReachesItself(t, cfg);
    ReachesOpen(t, t, spare, cfg);
    CarriedWatermarkLoses(t, ApplyOpen(t, spare), spare, raw, cfg);
  }

  lemma OpenedRowLoses(s: State, validity: nat, base: Uid, inFlight: set<PassId>, p: PassId, raw: Bytes,
                       cfg: Config)
    requires Invariant(s, cfg) && Enabled(s, Renumber(validity, base, inFlight))
    requires p in s.passes && p !in inFlight && s.passes[p].Opened? && !BaseOk(s.server, s.passes[p].row, base)
    requires IsNews(s.db, base + Slack(s.server), raw, cfg)
    ensures !SafeForever(Apply(s, Renumber(validity, base, inFlight), cfg), cfg)
  {
    var t := Apply(s, Renumber(validity, base, inFlight), cfg);
    ReachesItself(t, cfg);
    assert ProgressOk(s, s.passes[p], cfg);
    CarriedWatermarkLoses(t, t, p, raw, cfg);
  }

  lemma InFlightLoses(s: State, validity: nat, base: Uid, inFlight: set<PassId>, p: PassId, spare: PassId,
                      raw: Bytes, cfg: Config)
    requires Invariant(s, cfg) && Enabled(s, Renumber(validity, base, inFlight)) && p in inFlight
    requires BaseOk(s.server, StoredRow(s.db), base) && IsNews(s.db, base, raw, cfg)
    requires forall q :: q in s.passes ==> q < spare
    ensures !SafeForever(Apply(s, Renumber(validity, base, inFlight), cfg), cfg)
  {
    var t := Apply(s, Renumber(validity, base, inFlight), cfg);
    assert HeldOver(t, s.server, p);
    LateCommitLoses(t, s.server, p, spare, raw, cfg);
  }

  /** A changed UIDVALIDITY is survived exactly when the rows lie below the new
      numbering, `highest_seen` starting from the old watermark, and no pass still
      has a commit of the old numbering in hand. */
  lemma RenumberingExact(s: State, validity: nat, base: Uid, inFlight: set<PassId>, spare: PassId, raw: Bytes,
                         cfg: Config)
    requires Invariant(s, cfg) && Enabled(s, Renumber(validity, base, inFlight))
    requires forall p :: p in s.passes ==> p < spare
    requires IsNews(s.db, base, raw, cfg) && IsNews(s.db, base + Slack(s.server), raw, cfg)
    ensures SafeForever(Apply(s, Renumber(validity, base, inFlight), cfg), cfg)
            <==> RowsBelow(s, base) && inFlight == {}
  {
    if !BaseOk(s.server, StoredRow(s.db), base) {
      StoredRowLoses(s, validity, base, inFlight, spare, raw, cfg);
    } else if p :| p in s.passes && p !in inFlight && s.passes[p].Opened? && !BaseOk(s.server, s.passes[p].row, base) {
      OpenedRowLoses(s, validity, base, inFlight, p, raw, cfg);
    } else if p :| p in inFlight {
      InFlightLoses(s, validity, base, inFlight, p, spare, raw, cfg);
    } else {
      DisciplinedRenumberIsSafe(s, validity, base, cfg);
    }
  }

  // --- truncation ------------------------------------------------------------------------

  /** `max_messages` is safe exactly when it leaves something of the listing:
      cut to nothing, the pass takes the listing for empty and jumps to UIDNEXT. */
  lemma TruncationExact(s: State, pass: PassId, limit: Option<int>, now: Time, news: Uid, cfg: Config)
    requires Invariant(s, cfg) && Enabled(s, Search(pass, limit, now))
    requires var row := s.passes[pass].row;
             && news in Candidates(row, s.server.validity, s.server.present)
             && news < s.passes[pass].uidnext
             && !Accounted(s.db, s.server, s.ledger, news, cfg)
             && !Tombstoned(s.db.holds, news)
    ensures NoSilentLoss(Apply(s, Search(pass, limit, now), cfg), cfg)
            <==> LimitOk(limit, |Candidates(s.passes[pass].row, s.server.validity, s.server.present)|)
  {
    var row := s.passes[pass].row;
    var candidates := Candidates(row, s.server.validity, s.server.present);
    if LimitOk(limit, |candidates|) {
      SearchOk(s, pass, limit, now, cfg);
    } else {
      TruncationLeavesSome(candidates, limit);
      var t := ApplySearch(s, pass, limit, now);
      assert !Accounted(t.db, t.server, t.ledger, news, cfg);
    }
  }

  // --- a stale mailbox row ---------------------------------------------------------------

  /** Only its tombstone accounts for `lost`. */
  ghost predicate OnlyTombstoned(s: State, lost: Uid, cfg: Config) {
    && lost in s.server.delivered && s.db.uidnext.Some? && lost < s.db.uidnext.value
    && Tombstoned(s.db.holds, lost)
    && !Accounted(s.db.(holds := map[]), s.server, s.ledger, lost, cfg)
  }

  /** A full resync drops the hold rows. With a tombstone at stake that is safe
      exactly when they are not this numbering's: no other pass has rebased the
      mailbox since the row was read. */
  lemma StaleSelectExact(s: State, pass: PassId, names: bool, lost: Uid, cfg: Config)
    requires Invariant(s, cfg) && Enabled(s, Select(pass, names))
    requires Current(s) ==> OnlyTombstoned(s, lost, cfg)
    ensures NoSilentLoss(Apply(s, Select(pass, names), cfg), cfg)
            <==> !DropsCurrent(s.passes[pass].row, s.db, s.server.validity)
  {
    var t := Apply(s, Select(pass, names), cfg);
    if DropsCurrent(s.passes[pass].row, s.db, s.server.validity) {
      assert t.db.holds == map[];
      assert !Accounted(t.db, t.server, t.ledger, lost, cfg);
    }
  }

  /** In no disciplined continuation do hold rows of one numbering pass for those
      of another. */
  ghost predicate HoldsStayFresh(s: State, cfg: Config) {
    forall es :: Legal(s, es, cfg) && DisciplinedRun(s, es, cfg) && Current(Run(s, es, cfg))
      ==> Run(s, es, cfg).db.holds.Keys <= Run(s, es, cfg).server.delivered.Keys
  }

  lemma StalenessCarriesBack(s: State, e: Event, cfg: Config)
    requires Enabled(s, e) && Disciplined(s, e) && !HoldsStayFresh(Apply(s, e, cfg), cfg)
    ensures !HoldsStayFresh(s, cfg)
  {
    var t := Apply(s, e, cfg);
    var es :| Legal(t, es, cfg) && DisciplinedRun(t, es, cfg) && Current(Run(t, es, cfg))
              && !(Run(t, es, cfg).db.holds.Keys <= Run(t, es, cfg).server.delivered.Keys);
    assert ([e] + es)[1..] == es;
    assert Legal(s, [e] + es, cfg) && DisciplinedRun(s, [e] + es, cfg);
    assert Run(s, [e] + es, cfg) == Run(t, es, cfg);
  }

  /** A row read before the first sync drops nothing. That is safe exactly when
      there is nothing to drop: no hold row of an older numbering. */
  lemma UnclearedHoldsExact(s: State, pass: PassId, names: bool, stale: Uid, cfg: Config)
    requires Invariant(s, cfg) && Enabled(s, Select(pass, names)) && s.passes[pass].row.uidvalidity.None?
    requires KeepsStale(s.passes[pass].row, s.db, s.server.validity) ==>
               stale in s.db.holds && stale !in s.server.delivered
    ensures HoldsStayFresh(Apply(s, Select(pass, names), cfg), cfg)
            <==> !KeepsStale(s.passes[pass].row, s.db, s.server.validity)
  {
    var t := Apply(s, Select(pass, names), cfg);
    if KeepsStale(s.passes[pass].row, s.db, s.server.validity) {
      StaleHoldsBecomeCurrent(t, pass, stale, cfg);
    } else {
      StepOk(s, Select(pass, names), cfg);
      forall es | Legal(t, es, cfg) && DisciplinedRun(t, es, cfg) && Current(Run(t, es, cfg))
        ensures Run(t, es, cfg).db.holds.Keys <= Run(t, es, cfg).server.delivered.Keys
      {
        RunOk(t, es, cfg);
      }
    }
  }

  /** Emptied by its owner, the mailbox has nothing to list, and the pass stamps
      the old rows with the new UIDVALIDITY. */
  lemma {:induction false} StaleHoldsBecomeCurrent(t: State, pass: PassId, stale: Uid, cfg: Config)
    requires pass in t.passes && t.passes[pass].AfterSelect? && t.passes[pass].row.uidvalidity.None?
    requires stale in t.db.holds && stale !in t.server.delivered
    ensures !HoldsStayFresh(t, cfg)
    decreases |t.server.present|
  {
    if t.server.present == {} {
      var e := Search(pass, None, 0);
      assert Candidates(t.passes[pass].row, t.server.validity, {}) == [];
      var t' := Apply(t, e, cfg);
      assert Legal(t', [], cfg) && DisciplinedRun(t', [], cfg) && Run(t', [], cfg) == t';
      StalenessCarriesBack(t, e, cfg);
    } else {
      var u :| u in t.server.present;
      StaleHoldsBecomeCurrent(Apply(t, Expunge(u), cfg), pass, stale, cfg);
      StalenessCarriesBack(t, Expunge(u), cfg);
    }
  }

  // --- runs that get there ---------------------------------------------------------------

  /** A mailbox synced while empty, then renumbered, with one message since; two
      passes have read the row of the older numbering. */
  ghost predicate TwoOldRows(t: State, first: Uid) {
    && Unsynced(t, first, NO_ROWS) && t.db.holds == map[] && t.server.next == first + 1
    && t.passes.Keys == {1, 2} && t.passes[2] == t.passes[1]
    && t.passes[1].Opened? && t.passes[1].row.uidvalidity.Some? && t.passes[1].row.uidnext == Some(first)
    && t.passes[1].row.uidvalidity.value < t.server.validity
    && t.db.uidvalidity == t.passes[1].row.uidvalidity
  }

  const NO_ROWS := Db(None, None, [], map[], map[], map[])

  /** After one pass over the empty mailbox. */
  function SyncedEmpty(s: State): State {
    s.(db := Db(Some(s.server.validity), Some(s.server.next), [], map[], map[], map[]))
  }

  lemma ReachesSynced(s: State, cfg: Config)
    requires Initial(s) && s.server.delivered == map[]
    ensures Reachable(s, SyncedEmpty(s), cfg)
  {
    ReachesItself(s, cfg);
    ReachesOpen(s, s, 0, cfg);
    var t1 := ApplyOpen(s, 0);
    ReachesSelect(s, t1, 0, true, cfg);
    var t2 := ApplySelect(t1, 0, true);
    assert Candidates(StoredRow(s.db), s.server.validity, {}) == [];
    ReachesSearch(s, t2, 0, 0, cfg);
    var t3 := ApplySearch(t2, 0, None, 0);
    assert t3.passes == map[] && t3.ledger == s.ledger;
    assert t3 == SyncedEmpty(s);
  }

  /** Two passes have read the row of the synced mailbox. */
  function TwoOpened(s: State): State {
    var row := Opened(MailboxRow(Some(s.server.validity), Some(s.server.next)));
    SyncedEmpty(s).(passes := map[1 := row, 2 := row])
  }

  lemma ReachesTwoOpened(s: State, cfg: Config)
    requires Initial(s) && s.server.delivered == map[]
    ensures Reachable(s, TwoOpened(s), cfg)
  {
    ReachesSynced(s, cfg);
    var t0 := SyncedEmpty(s);
    ReachesOpen(s, t0, 1, cfg);
    var t1 := ApplyOpen(t0, 1);
    ReachesOpen(s, t1, 2, cfg);
    assert ApplyOpen(t1, 2) == TwoOpened(s);
  }

  lemma ReachesTwoOldRows(s: State, raw: Bytes, cfg: Config) returns (t: State)
    requires Initial(s) && s.server.delivered == map[]
    ensures Reachable(s, t, cfg) && TwoOldRows(t, s.server.next)
  {
    var first := s.server.next;
    ReachesTwoOpened(s, cfg);
    var renumber := Renumber(s.server.validity + 1, first, {});
    var t1 := Apply(TwoOpened(s), renumber, cfg);
    ReachesNext(s, TwoOpened(s), renumber, cfg);
    ReachesDeliver(s, t1, first, raw, cfg);
    t := ApplyDeliver(t1, first, raw);
  }

  /** The losing run: two passes read the row, the mailbox is renumbered, one of
      them holds back a message of the new numbering, a third gives up on it when
      its window is over, and the other, selecting on its old row, drops the
      tombstone that was the only record. */
  lemma StaleSelectLoses(s: State, raw: Bytes, cfg: Config) returns (t: State)
    requires Initial(s) && s.server.delivered == map[]
    ensures Reachable(s, t, cfg) && Enabled(t, Select(1, true)) && Current(t)
    ensures NoSilentLoss(t, cfg) && !NoSilentLoss(Apply(t, Select(1, true), cfg), cfg)
  {
    var first := s.server.next;
    var t0 := ReachesTwoOldRows(s, raw, cfg);
    t := ReachesGivenUp(s, t0, 2, 3, first, NO_ROWS, cfg);
    assert 1 in t0.passes - {2};
    DroppedTombstoneLoses(t, first, cfg);
  }

  lemma DroppedTombstoneLoses(t: State, first: Uid, cfg: Config)
    requires Unsynced(t, first, NO_ROWS) && Current(t) && GivenUpRow(t, first)
    requires 1 in t.passes && t.passes[1].Opened? && t.passes[1].row.uidvalidity.Some?
    requires FullSync(t.passes[1].row, t.server.validity)
    ensures NoSilentLoss(t, cfg) && !NoSilentLoss(ApplySelect(t, 1, true), cfg)
  {
    var t' := ApplySelect(t, 1, true);
    assert t'.db.holds == map[];
    assert !Accounted(t'.db, t'.server, t'.ledger, first, cfg);
  }

  /** And for rows nobody drops: a pass reads the mailbox row before the first
      sync, another records a hold, the mailbox is renumbered, and the first pass
      selects with nothing to clear. */
  lemma UnclearedHoldsReached(s: State, raw: Bytes, cfg: Config) returns (t: State)
    requires Initial(s) && s.server.delivered == map[]
    ensures Reachable(s, t, cfg) && Enabled(t, Select(0, true))
    ensures KeepsStale(t.passes[0].row, t.db, t.server.validity)
    ensures !HoldsStayFresh(Apply(t, Select(0, true), cfg), cfg)
  {
    var first := s.server.next;
    ReachesItself(s, cfg);
    ReachesOpen(s, s, 0, cfg);
    var t1 := ApplyOpen(s, 0);
    ReachesOpen(s, t1, 1, cfg);
    var t2 := ApplyOpen(t1, 1);
    ReachesDeliver(s, t2, first, raw, cfg);
    var t3 := ApplyDeliver(t2, first, raw);
    var t4 := FirstPass(s, t3, 1, first, NO_ROWS, cfg);
    assert 0 in t3.passes - {1};
    var renumber := Renumber(s.server.validity + 1, first + 1, {});
    t := Apply(t4, renumber, cfg);
    ReachesNext(s, t4, renumber, cfg);
    StaleHoldsBecomeCurrent(Apply(t, Select(0, true), cfg), 0, first, cfg);
  }
}
