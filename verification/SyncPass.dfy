/** What `MailboxSync.SyncMailbox` computes is a run of the protocol, so whatever
    holds of runs holds of the code. */
module SyncPass {
  import opened Prelude
  import opened Uids
  import opened FetchRetry
  import opened Sync
  import opened SyncRun

  lemma {:induction false} RunConcat(s: State, es: seq<Event>, fs: seq<Event>, cfg: Config)
    requires Legal(s, es, cfg) && Legal(Run(s, es, cfg), fs, cfg)
    ensures Legal(s, es + fs, cfg)
    ensures Run(s, es + fs, cfg) == Run(Run(s, es, cfg), fs, cfg)
    ensures DisciplinedRun(s, es, cfg) && DisciplinedRun(Run(s, es, cfg), fs, cfg)
            ==> DisciplinedRun(s, es + fs, cfg)
    decreases |es|
  {
    if es == [] {
      assert es + fs == fs;
    } else {
      assert (es + fs)[0] == es[0] && (es + fs)[1..] == es[1..] + fs;
      RunConcat(Apply(s, es[0], cfg), es[1..], fs, cfg);
    }
  }

  lemma RunOne(s: State, e: Event, cfg: Config)
    requires Enabled(s, e)
    ensures Legal(s, [e], cfg) && Run(s, [e], cfg) == Apply(s, e, cfg)
    ensures Disciplined(s, e) ==> DisciplinedRun(s, [e], cfg)
  {
    assert [e][1..] == [];
  }

  /** A step of another session, pass or server, within this UIDVALIDITY. */
  predicate Elsewhere(e: Event, pass: PassId) {
    match e
    case Renumber(_, _, _) => false
    case Open(p) => p != pass
    case Select(p, _) => p != pass
    case Search(p, _, _) => p != pass
    case RunBatch(p, _) => p != pass
    case CommitLate(p, _) => p != pass
    case Die(p) => p != pass
    case _ => true
  }

  /** From `s`, others do `es` and leave the tables as `db`. */
  ghost predicate Meanwhile(s: State, es: seq<Event>, pass: PassId, db: Db, cfg: Config) {
    && Legal(s, es, cfg) && DisciplinedRun(s, es, cfg) && Run(s, es, cfg).db == db
    && forall e :: e in es ==> Elsewhere(e, pass)
  }

  ghost predicate SamePass(s: State, t: State, pass: PassId) {
    && t.server.validity == s.server.validity && t.server.announces == s.server.announces
    && (pass in s.passes ==> pass in t.passes && t.passes[pass] == s.passes[pass])
  }

  lemma {:induction false} ElsewhereKeeps(s: State, es: seq<Event>, pass: PassId, cfg: Config)
    requires Legal(s, es, cfg) && forall e :: e in es ==> Elsewhere(e, pass)
    ensures SamePass(s, Run(s, es, cfg), pass)
    decreases |es|
  {
    if es != [] {
      assert es[0] in es && forall e :: e in es[1..] ==> e in es;
      assert SamePass(s, Apply(s, es[0], cfg), pass);
      ElsewhereKeeps(Apply(s, es[0], cfg), es[1..], pass, cfg);
    }
  }

  /** What happens at each of the points where the pass stops for others. */
  type Script = nat -> seq<Event>

  /** The rest of a pass as events: what others do, then a batch, until done. */
  function BatchEvents(db: Db, scan: Scan, i: nat, validity: nat, pass: PassId, script: Script,
                       session: Session, cfg: Config): seq<Event>
    decreases |scan.todo|, 1
  {
    if scan.todo == [] then []
    else
      script(i) +
      if session.crashAt == Some(i) then [Die(pass)]
      else TransactionEvents(session.others(i, db), scan, i, validity, pass, script, session, cfg)
  }

  function TransactionEvents(db: Db, scan: Scan, i: nat, validity: nat, pass: PassId, script: Script,
                             session: Session, cfg: Config): seq<Event>
    requires scan.todo != []
    decreases |scan.todo|, 0
  {
    [RunBatch(pass, session.answers)] +
    match BatchStep(db, scan, session.answers, validity, cfg)
    case RolledBack => []
    case Committed(db', scan', _, _) => BatchEvents(db', scan', i + 1, validity, pass, script, session, cfg)
  }

  /** The script fits the session: at each point others leave the tables the
      session finds, and each answer is one the server of that moment may give. */
  ghost predicate Plays(s: State, scan: Scan, i: nat, pass: PassId, script: Script,
                        session: Session, cfg: Config)
    decreases |scan.todo|, 1
  {
    scan.todo != [] ==>
      && Meanwhile(s, script(i), pass, session.others(i, s.db), cfg)
      && (session.crashAt != Some(i) ==>
            PlaysBatch(Run(s, script(i), cfg), scan, i, pass, script, session, cfg))
  }

  ghost predicate PlaysBatch(t: State, scan: Scan, i: nat, pass: PassId, script: Script,
                             session: Session, cfg: Config)
    requires scan.todo != []
    decreases |scan.todo|, 0
  {
    && pass in t.passes && t.passes[pass] == Fetching(scan)
    && Enabled(t, RunBatch(pass, session.answers))
    && match BatchStep(t.db, scan, session.answers, t.server.validity, cfg)
       case RolledBack => true
       case Committed(_, scan', _, _) =>
         Plays(ApplyBatch(t, pass, session.answers, cfg), scan', i + 1, pass, script, session, cfg)
  }

  /** From `s`, `es` is a disciplined run within this UIDVALIDITY that ends in `db`. */
  ghost predicate RunsTo(s: State, es: seq<Event>, db: Db, cfg: Config) {
    && Legal(s, es, cfg) && DisciplinedRun(s, es, cfg)
    && Run(s, es, cfg).server.validity == s.server.validity && Run(s, es, cfg).db == db
  }

  lemma RunsToConcat(s: State, t: State, es: seq<Event>, fs: seq<Event>, db: Db, cfg: Config)
    requires Legal(s, es, cfg) && DisciplinedRun(s, es, cfg) && t == Run(s, es, cfg)
    requires t.server.validity == s.server.validity && RunsTo(t, fs, db, cfg)
    ensures RunsTo(s, es + fs, db, cfg)
  {
    RunConcat(s, es, fs, cfg);
  }

  lemma {:induction false} BatchesRun(s: State, log: Log, inserted: nat, scan: Scan, i: nat,
                                      pass: PassId, script: Script, session: Session, cfg: Config)
    requires scan.todo != [] ==> pass in s.passes && s.passes[pass] == Fetching(scan)
    requires Plays(s, scan, i, pass, script, session, cfg)
    ensures RunsTo(s, BatchEvents(s.db, scan, i, s.server.validity, pass, script, session, cfg),
                   Batches(s.db, log, inserted, scan, i, s.server.validity, session, cfg).db, cfg)
    decreases |scan.todo|, 1
  {
    if scan.todo != [] {
      var t := Run(s, script(i), cfg);
      ElsewhereKeeps(s, script(i), pass, cfg);
      if session.crashAt == Some(i) {
        RunOne(t, Die(pass), cfg);
        RunsToConcat(s, t, script(i), [Die(pass)], t.db, cfg);
      } else {
        TransactionRun(t, log, inserted, scan, i, pass, script, session, cfg);
        RunsToConcat(s, t, script(i),
                     TransactionEvents(t.db, scan, i, t.server.validity, pass, script, session, cfg),
                     Transaction(t.db, log, inserted, scan, i, t.server.validity, session, cfg).db, cfg);
      }
    }
  }

  lemma {:induction false} TransactionRun(t: State, log: Log, inserted: nat, scan: Scan, i: nat,
                                          pass: PassId, script: Script, session: Session, cfg: Config)
    requires scan.todo != [] && PlaysBatch(t, scan, i, pass, script, session, cfg)
    ensures RunsTo(t, TransactionEvents(t.db, scan, i, t.server.validity, pass, script, session, cfg),
                   Transaction(t.db, log, inserted, scan, i, t.server.validity, session, cfg).db, cfg)
    decreases |scan.todo|, 0
  {
    var e := RunBatch(pass, session.answers);
    RunOne(t, e, cfg);
    var t1 := ApplyBatch(t, pass, session.answers, cfg);
    match BatchStep(t.db, scan, session.answers, t.server.validity, cfg)
    case RolledBack =>
      assert [e] + [] == [e];
    case Committed(db', scan', log', inserted') =>
      BatchesRun(t1, Log(log.expunged + log'.expunged, log.errors + log'.errors),
                 inserted + inserted', scan', i + 1, pass, script, session, cfg);
      RunsToConcat(t, t1, [e], BatchEvents(db', scan', i + 1, t.server.validity, pass, script, session, cfg),
                   Transaction(t.db, log, inserted, scan, i, t.server.validity, session, cfg).db, cfg);
  }

  // --- the whole pass -----------------------------------------------------------------

  /** What SELECT answers now and SEARCH sees later. */
  function StatusOf(atSelect: Server, atSearch: Server, names: bool): Selected {
    Selected(atSelect.validity, if names then atSelect.next else 0, atSearch.present)
  }

  function SearchEvents(db: Db, row: MailboxRow, status: Selected, pass: PassId, limit: Option<int>,
                        script: Script, session: Session, cfg: Config): seq<Event> {
    var todo := Todo(row, status.validity, status.present, limit);
    [Search(pass, limit, session.now)] +
    if todo == [] then []
    else BatchEvents(db, StartScan(db, row, todo, session.now), 1, status.validity, pass, script, session, cfg)
  }

  function PassEvents(db: Db, row: MailboxRow, status: Selected, pass: PassId, names: bool,
                      limit: Option<int>, script: Script, session: Session, cfg: Config): seq<Event> {
    [Select(pass, names)] + (script(0) +
      if session.crashAt == Some(0) then [Die(pass)]
      else SearchEvents(session.others(0, SelectDb(db, row, status.validity)), row, status, pass, limit,
                        script, session, cfg))
  }

  ghost predicate PlaysSearch(t: State, row: MailboxRow, pass: PassId, limit: Option<int>, script: Script,
                              session: Session, cfg: Config) {
    && pass in t.passes && t.passes[pass].AfterSelect? && t.passes[pass].row == row
    && LimitOk(limit, |Candidates(row, t.server.validity, t.server.present)|)
    && var todo := Todo(row, t.server.validity, t.server.present, limit);
       todo != [] ==>
         Plays(ApplySearch(t, pass, limit, session.now), StartScan(t.db, row, todo, session.now), 1,
               pass, script, session, cfg)
  }

  /** The tables, and the server, as the SEARCH of an opened pass finds them. */
  ghost function AtSearch(s: State, pass: PassId, names: bool, script: Script, cfg: Config): State
    requires pass in s.passes && s.passes[pass].Opened?
    requires Legal(ApplySelect(s, pass, names), script(0), cfg)
  {
    Run(ApplySelect(s, pass, names), script(0), cfg)
  }

  ghost predicate PlaysPass(s: State, row: MailboxRow, pass: PassId, names: bool, limit: Option<int>,
                            script: Script, session: Session, cfg: Config) {
    && pass in s.passes && s.passes[pass] == Opened(row)
    && RowCurrent(row, s.db, s.server.validity) && (s.server.announces ==> names)
    && var s1 := ApplySelect(s, pass, names);
    && Meanwhile(s1, script(0), pass, session.others(0, s1.db), cfg)
    && (session.crashAt != Some(0) ==>
          PlaysSearch(AtSearch(s, pass, names, script, cfg), row, pass, limit, script, session, cfg))
  }

  lemma SearchRun(t: State, row: MailboxRow, status: Selected, pass: PassId, limit: Option<int>,
                  script: Script, session: Session, cfg: Config)
    requires PlaysSearch(t, row, pass, limit, script, session, cfg)
    requires status == Selected(t.server.validity, t.passes[pass].uidnext, t.server.present)
    ensures RunsTo(t, SearchEvents(t.db, row, status, pass, limit, script, session, cfg),
                   PassOver(t.db, row, status, Todo(row, status.validity, status.present, limit),
                            session, cfg).db, cfg)
  {
    var e := Search(pass, limit, session.now);
    var todo := Todo(row, t.server.validity, t.server.present, limit);
    RunOne(t, e, cfg);
    var t1 := ApplySearch(t, pass, limit, session.now);
    if todo == [] {
      assert [e] + [] == [e];
    } else {
      var scan := StartScan(t.db, row, todo, session.now);
      BatchesRun(t1, EMPTY_LOG, 0, scan, 1, pass, script, session, cfg);
      RunsToConcat(t, t1, [e], BatchEvents(t.db, scan, 1, t.server.validity, pass, script, session, cfg),
                   PassOver(t.db, row, status, todo, session, cfg).db, cfg);
    }
  }

  /** A call of `SyncMailbox`, on a mailbox row read at any time before, over a
      server that moves and among other passes and operators that commit between
      any two of its own commits, is a disciplined run of the machine. */
  lemma PassIsRun(s: State, row: MailboxRow, status: Selected, pass: PassId, names: bool,
                  limit: Option<int>, script: Script, session: Session, cfg: Config)
    requires PlaysPass(s, row, pass, names, limit, script, session, cfg)
    requires status == StatusOf(s.server, AtSearch(s, pass, names, script, cfg).server, names)
    ensures RunsTo(s, PassEvents(s.db, row, status, pass, names, limit, script, session, cfg),
                   Pass(s.db, row, status, limit, session, cfg).db, cfg)
  {
    var e := Select(pass, names);
    var s1 := ApplySelect(s, pass, names);
    var t := AtSearch(s, pass, names, script, cfg);
    RunOne(s, e, cfg);
    ElsewhereKeeps(s1, script(0), pass, cfg);
    var r := Pass(s.db, row, status, limit, session, cfg);
    if session.crashAt == Some(0) {
      RunOne(t, Die(pass), cfg);
      RunsToConcat(s1, t, script(0), [Die(pass)], r.db, cfg);
      RunsToConcat(s, s1, [e], script(0) + [Die(pass)], r.db, cfg);
    } else {
      var tail := SearchEvents(t.db, row, status, pass, limit, script, session, cfg);
      SearchRun(t, row, status, pass, limit, script, session, cfg);
      RunsToConcat(s1, t, script(0), tail, r.db, cfg);
      RunsToConcat(s, s1, [e], script(0) + tail, r.db, cfg);
    }
  }

  /** The code loses nothing: from any reachable state, wherever the pass dies
      and whatever happens between its commits. */
  lemma SyncMailboxLosesNothing(s: State, row: MailboxRow, status: Selected, pass: PassId, names: bool,
                                limit: Option<int>, script: Script, session: Session, cfg: Config)
    requires Invariant(s, cfg) && PlaysPass(s, row, pass, names, limit, script, session, cfg)
    requires status == StatusOf(s.server, AtSearch(s, pass, names, script, cfg).server, names)
    ensures var es := PassEvents(s.db, row, status, pass, names, limit, script, session, cfg);
            && Legal(s, es, cfg)
            && var t := Run(s, es, cfg);
            && t.db == Pass(s.db, row, status, limit, session, cfg).db
            && Invariant(t, cfg) && NoSilentLoss(t, cfg)
  {
    PassIsRun(s, row, status, pass, names, limit, script, session, cfg);
    RunOk(s, PassEvents(s.db, row, status, pass, names, limit, script, session, cfg), cfg);
  }

  // --- undisturbed ------------------------------------------------------------------------

  ghost predicate Honest(server: Server, uids: seq<Uid>, session: Session) {
    forall u :: u in uids ==> Truthful(server, u, session.answers(u)) && session.now <= session.answers(u).stamp
  }

  lemma {:induction false} UndisturbedScan(s: State, scan: Scan, i: nat, pass: PassId, session: Session,
                                           cfg: Config)
    requires scan.todo != [] ==> pass in s.passes && s.passes[pass] == Fetching(scan)
    requires Honest(s.server, scan.todo, session) && scan.now == session.now
    requires forall j, db :: session.others(j, db) == db
    ensures Plays(s, scan, i, pass, (j: nat) => [], session, cfg)
    decreases |scan.todo|
  {
    if scan.todo != [] {
      assert session.others(i, s.db) == s.db;
      assert forall u :: u in FirstBatch(scan.todo) ==> u in scan.todo;
      match BatchStep(s.db, scan, session.answers, s.server.validity, cfg)
      case RolledBack =>
      case Committed(_, scan', _, _) =>
        assert forall u :: u in scan'.todo ==> u in scan.todo;
        UndisturbedScan(ApplyBatch(s, pass, session.answers, cfg), scan', i + 1, pass, session, cfg);
    }
  }

  /** With nobody else about, every opened pass over an honest server plays. */
  lemma UndisturbedPass(s: State, row: MailboxRow, pass: PassId, names: bool, limit: Option<int>,
                        session: Session, cfg: Config)
    requires pass in s.passes && s.passes[pass] == Opened(row)
    requires RowCurrent(row, s.db, s.server.validity) && (s.server.announces ==> names)
    requires LimitOk(limit, |Candidates(row, s.server.validity, s.server.present)|)
    requires Honest(s.server, Todo(row, s.server.validity, s.server.present, limit), session)
    requires forall j, db :: session.others(j, db) == db
    ensures PlaysPass(s, row, pass, names, limit, (j: nat) => [], session, cfg)
  {
    var t := ApplySelect(s, pass, names);
    assert session.others(0, t.db) == t.db;
    var todo := Todo(row, t.server.validity, t.server.present, limit);
    if todo != [] {
      UndisturbedScan(ApplySearch(t, pass, limit, session.now), StartScan(t.db, row, todo, session.now), 1,
                      pass, session, cfg);
    }
  }
}
