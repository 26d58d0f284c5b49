/** `write_attachments` against other writers, crashes and concurrent sweeps. */
module BlobStore {
  import opened Prelude
  import opened BlobTemps

  type WriterId = nat
  type SweepId = nat

  /** The two kinds of file the store makes, and whatever else is in the tree. */
  datatype Path = Blob(digest: string) | Temp(digest: string, pid: nat, token: string) | Other(name: string)

  /** `digest` is a hex SHA-256; nothing below needs it to be collision-free. */
  datatype Store = Store(digest: Bytes -> string, maxAge: Time)

  function FileName(p: Path): string {
    match p
    case Blob(digest) => digest
    case Temp(digest, pid, token) => TempName(digest, pid, token)
    case Other(name) => name
  }

  predicate WellNamed(p: Path) {
    match p
    case Blob(digest) => IsBlobName(digest)
    case Temp(digest, pid, token) => IsBlobName(digest) && |token| == 32 && AllHex(token)
    case Other(_) => false
  }

  /** On disk the paths of the store are apart, and the collector can tell them. */
  lemma FileNamesApart(p: Path, q: Path)
    requires WellNamed(p) && WellNamed(q)
    ensures FileName(p) == FileName(q) ==> p == q
    ensures IsWriterTemp(FileName(p)) <==> p.Temp?
  {
    match p
    case Blob(digest) =>
    case Temp(digest, pid, token) =>
      WriterTempsAreRecognised(digest, pid, token);
      if q.Temp? && FileName(p) == FileName(q) {
        TempNameInjective(digest, pid, token, q.digest, q.pid, q.token);
      } else if q.Blob? {
        WriterTempsAreRecognised(q.digest, pid, token);
      }
  }

  datatype Stage =
    | Arriving
    | Writing(written: nat, since: Time)   // private temp created, payload part written
    | Staged(since: Time)                  // all of it written
    | InPlace                              // the canonical path exists
    | Recorded                             // row inserted, not committed
    | Done
    | Failed                               // an exception, cleaned up after
    | Killed                               // the process died where it was

  datatype Writer = Writer(payload: Bytes, pid: nat, token: string, stage: Stage)

  /** `seen` is what the walk has looked at, `doomed` what it will unlink next. */
  datatype Sweep = Sweep(now: Time, seen: set<Path>, doomed: set<Path>)

  datatype State = State(
    files: map<Path, File>, rows: set<string>, clock: Time,
    writers: map<WriterId, Writer>, sweeps: map<SweepId, Sweep>)

  datatype Event =
    | LookUp(w: WriterId)
    | Write(w: WriterId, upTo: nat)
    | Replace(w: WriterId)
    | Raise(w: WriterId)
    | Record(w: WriterId)
    | Commit(w: WriterId)
    | Kill(w: WriterId)
    | Tick(step: nat)
    | StartSweep(s: SweepId)
    | Stat(s: SweepId, path: Path)
    | Unlink(s: SweepId, path: Path)

  function BlobPath(store: Store, w: Writer): Path {
    Blob(store.digest(w.payload))
  }

  function TempPath(store: Store, w: Writer): Path {
    Temp(store.digest(w.payload), w.pid, w.token)
  }

  predicate Staging(w: Writer) {
    w.stage.Writing? || w.stage.Staged?
  }

  ghost predicate Enabled(s: State, e: Event) {
    match e
    case LookUp(w) => w in s.writers && s.writers[w].stage.Arriving?
    case Write(w, upTo) =>
      && w in s.writers && s.writers[w].stage.Writing?
      && s.writers[w].stage.written <= upTo <= |s.writers[w].payload|
    case Replace(w) => w in s.writers && s.writers[w].stage.Staged?
    case Raise(w) =>
      w in s.writers && (Staging(s.writers[w]) || s.writers[w].stage.InPlace? || s.writers[w].stage.Recorded?)
    case Record(w) => w in s.writers && s.writers[w].stage.InPlace?
    case Commit(w) => w in s.writers && s.writers[w].stage.Recorded?
    case Kill(w) => w in s.writers && !s.writers[w].stage.Done?
    case Tick(_) => true
    case StartSweep(k) => k !in s.sweeps
    case Stat(k, _) => k in s.sweeps
    case Unlink(k, path) => k in s.sweeps && path in s.sweeps[k].doomed
  }

  function SetStage(s: State, w: WriterId, stage: Stage): State
    requires w in s.writers
  {
    s.(writers := s.writers[w := s.writers[w].(stage := stage)])
  }

  ghost function Apply(s: State, e: Event, store: Store): State
    requires Enabled(s, e)
  {
    match e
    case LookUp(w) =>
      if BlobPath(store, s.writers[w]) in s.files then SetStage(s, w, InPlace)
      else SetStage(s, w, Writing(0, s.clock))
             .(files := s.files[TempPath(store, s.writers[w]) := File([], s.clock)])
    case Write(w, upTo) =>
      var stage := s.writers[w].stage;
      var stage' := if upTo == |s.writers[w].payload| then Staged(stage.since) else Writing(upTo, stage.since);
      var temp := TempPath(store, s.writers[w]);
      SetStage(s, w, stage')
        // writing to an unlinked file brings no name back
        .(files := if temp in s.files then s.files[temp := File(s.writers[w].payload[..upTo], s.clock)] else s.files)
    case Replace(w) =>
      var temp := TempPath(store, s.writers[w]);
      if temp in s.files then
        SetStage(s, w, InPlace)
          .(files := (s.files - {temp})[BlobPath(store, s.writers[w]) := s.files[temp]])
      else SetStage(s, w, Failed)
    case Raise(w) =>
      SetStage(s, w, Failed)
        .(files := if Staging(s.writers[w]) then s.files - {TempPath(store, s.writers[w])} else s.files)
    case Record(w) => SetStage(s, w, Recorded)
    case Commit(w) => SetStage(s, w, Done).(rows := s.rows + {store.digest(s.writers[w].payload)})
    case Kill(w) => SetStage(s, w, Killed)
    case Tick(step) => s.(clock := s.clock + step)
    case StartSweep(k) => s.(sweeps := s.sweeps[k := Sweep(s.clock, {}, {})])
    case Stat(k, path) => s.(sweeps := s.sweeps[k := LookAt(s, s.sweeps[k], path, store)])
    case Unlink(k, path) =>
      s.(files := s.files - {path}, sweeps := s.sweeps[k := s.sweeps[k].(doomed := s.sweeps[k].doomed - {path})])
  }

  /** By name and age; an operator's file may look like a temp too. */
  function LookAt(s: State, sweep: Sweep, path: Path, store: Store): Sweep {
    var expired := path in s.files && IsWriterTemp(FileName(path))
                   && IsExpired(s.files[path].mtime, sweep.now, store.maxAge);
    sweep.(seen := sweep.seen + {path}, doomed := sweep.doomed + if expired then {path} else {})
  }

  ghost predicate Legal(s: State, es: seq<Event>, store: Store)
    decreases |es|
  {
    es == [] || (Enabled(s, es[0]) && Legal(Apply(s, es[0], store), es[1..], store))
  }

  ghost function Run(s: State, es: seq<Event>, store: Store): State
    requires Legal(s, es, store)
    decreases |es|
  {
    if es == [] then s else Run(Apply(s, es[0], store), es[1..], store)
  }

  /** Every writer's temp is its own: `new_temp_path` mints a fresh token. */
  ghost predicate PrivateTemps(s: State) {
    forall w, v :: w in s.writers && v in s.writers && w != v
      ==> s.writers[w].pid != s.writers[v].pid || s.writers[w].token != s.writers[v].token
  }

  /** Each canonical path holds bytes that hash to its name. */
  ghost predicate Intact(s: State, store: Store) {
    forall p :: p in s.files && p.Blob? ==> store.digest(s.files[p].content) == p.digest
  }

  ghost predicate RowsHaveFiles(s: State) {
    forall digest :: digest in s.rows ==> Blob(digest) in s.files
  }

  /** A digest is spelt as 64 hex digits. */
  ghost predicate HexDigests(store: Store) {
    forall bytes :: IsBlobName(store.digest(bytes))
  }

  ghost predicate Initial(s: State, store: Store) {
    && HexDigests(store) && PrivateTemps(s) && Intact(s, store) && RowsHaveFiles(s)
    && s.sweeps == map[] && forall w :: w in s.writers ==> s.writers[w].stage == Arriving
  }

  ghost predicate WriterOk(s: State, w: Writer, store: Store) {
    match w.stage
    case Writing(k, _) =>
      && k <= |w.payload|
      && (TempPath(store, w) in s.files ==> s.files[TempPath(store, w)].content == w.payload[..k])
    case Staged(_) => TempPath(store, w) in s.files ==> s.files[TempPath(store, w)].content == w.payload
    case InPlace => BlobPath(store, w) in s.files
    case Recorded => BlobPath(store, w) in s.files
    case Done => store.digest(w.payload) in s.rows
    case _ => true
  }

  ghost predicate Invariant(s: State, store: Store) {
    && HexDigests(store) && PrivateTemps(s) && Intact(s, store) && RowsHaveFiles(s)
    && (forall w :: w in s.writers ==> WriterOk(s, s.writers[w], store))
    && (forall k, p :: k in s.sweeps && p in s.sweeps[k].doomed ==> !p.Blob?)
  }

  lemma WriteOk(s: State, w: WriterId, upTo: nat, store: Store)
    requires Invariant(s, store) && Enabled(s, Write(w, upTo))
    ensures Invariant(Apply(s, Write(w, upTo), store), store)
  {
    assert s.writers[w].payload[..|s.writers[w].payload|] == s.writers[w].payload;
  }

  lemma ReplaceOk(s: State, w: WriterId, store: Store)
    requires Invariant(s, store) && Enabled(s, Replace(w))
    ensures Invariant(Apply(s, Replace(w), store), store)
  {
    assert WriterOk(s, s.writers[w], store);
  }

  lemma LookUpOk(s: State, w: WriterId, store: Store)
    requires Invariant(s, store) && Enabled(s, LookUp(w))
    ensures Invariant(Apply(s, LookUp(w), store), store)
  {
  }

  lemma RaiseOk(s: State, w: WriterId, store: Store)
    requires Invariant(s, store) && Enabled(s, Raise(w))
    ensures Invariant(Apply(s, Raise(w), store), store)
  {
    var t := Apply(s, Raise(w), store);
    assert forall p :: p in t.files ==> p in s.files && t.files[p] == s.files[p];
    assert forall p :: p in s.files && p.Blob? ==> p in t.files;
    forall v | v in t.writers ensures WriterOk(t, t.writers[v], store) {
      assert WriterOk(s, s.writers[v], store);
    }
  }

  lemma LeaveOk(s: State, e: Event, w: WriterId, store: Store)
    requires Invariant(s, store) && Enabled(s, e)
    requires e == Record(w) || e == Commit(w) || e == Kill(w)
    ensures Invariant(Apply(s, e, store), store)
  {
    var t := Apply(s, e, store);
    assert WriterOk(s, s.writers[w], store);
    forall v | v in t.writers ensures WriterOk(t, t.writers[v], store) {
      assert WriterOk(s, s.writers[v], store);
    }
  }

  /** A canonical file does not have the name of a temp. */
  lemma BlobsAreSpared(s: State, sweep: Sweep, path: Path, store: Store)
    requires HexDigests(store) && Intact(s, store)
    ensures path.Blob? ==> LookAt(s, sweep, path, store).doomed == sweep.doomed
  {
    if path.Blob? && path in s.files {
      FileNamesApart(path, path);
    }
  }

  lemma SweepOk(s: State, e: Event, store: Store)
    requires Invariant(s, store) && Enabled(s, e)
    requires e.Tick? || e.StartSweep? || e.Stat? || e.Unlink?
    ensures Invariant(Apply(s, e, store), store)
  {
    var t := Apply(s, e, store);
    if e.Stat? {
      BlobsAreSpared(s, s.sweeps[e.s], e.path, store);
    }
    if e.Unlink? {
      assert e.path in s.sweeps[e.s].doomed;
      assert forall p :: p in s.files && p.Blob? ==> p in t.files;
    }
    forall w | w in t.writers ensures WriterOk(t, t.writers[w], store) {
      assert WriterOk(s, s.writers[w], store);
    }
  }

  lemma StepOk(s: State, e: Event, store: Store)
    requires Invariant(s, store) && Enabled(s, e)
    ensures Invariant(Apply(s, e, store), store)
  {
    if e.Tick? || e.StartSweep? || e.Stat? || e.Unlink? {
      SweepOk(s, e, store);
    } else {
      match e
      case LookUp(w) => LookUpOk(s, w, store);
      case Write(w, upTo) => WriteOk(s, w, upTo, store);
      case Replace(w) => ReplaceOk(s, w, store);
      case Raise(w) => RaiseOk(s, w, store);
      case Record(w) => LeaveOk(s, e, w, store);
      case Commit(w) => LeaveOk(s, e, w, store);
      case Kill(w) => LeaveOk(s, e, w, store);
    }
  }

  lemma {:induction false} RunOk(s: State, es: seq<Event>, store: Store)
    requires Invariant(s, store) && Legal(s, es, store)
    ensures Invariant(Run(s, es, store), store)
    decreases |es|
  {
    if es != [] {
      StepOk(s, es[0], store);
      RunOk(Apply(s, es[0], store), es[1..], store);
    }
  }

  /** A writer that is done with payloads of this digest. */
  ghost predicate IsDone(s: State, digest: string, store: Store) {
    exists w :: w in s.writers && s.writers[w].stage.Done? && store.digest(s.writers[w].payload) == digest
  }

  lemma {:induction false} RecordsAreDone(s: State, es: seq<Event>, store: Store, digest: string)
    requires Legal(s, es, store) && digest in Run(s, es, store).rows
    ensures digest in s.rows || IsDone(Run(s, es, store), digest, store)
    decreases |es|
  {
    if es != [] {
      var t := Apply(s, es[0], store);
      RecordsAreDone(t, es[1..], store, digest);
      if digest in t.rows && digest !in s.rows {
        DoneStaysDone(t, es[1..], store, es[0].w);
      }
    }
  }

  lemma {:induction false} DoneStaysDone(s: State, es: seq<Event>, store: Store, w: WriterId)
    requires Legal(s, es, store) && w in s.writers && s.writers[w].stage.Done?
    ensures w in Run(s, es, store).writers && Run(s, es, store).writers[w] == s.writers[w]
    decreases |es|
  {
    if es != [] {
      DoneStaysDone(Apply(s, es[0], store), es[1..], store, w);
    }
  }

  /** For any number of writers, kills and sweeps, however they interleave: a
      canonical path only ever holds complete bytes hashing to its name, every
      recorded blob has its file, and recorded are exactly those that were and
      those of the writers that are done. No assumption on the clock. */
  lemma BlobsStayIntact(s: State, es: seq<Event>, store: Store)
    requires Initial(s, store) && Legal(s, es, store)
    ensures var t := Run(s, es, store);
            && Intact(t, store) && RowsHaveFiles(t)
            && forall digest :: digest in t.rows <==> digest in s.rows || IsDone(t, digest, store)
  {
    RunOk(s, es, store);
    RowsStay(s, es, store);
    var t := Run(s, es, store);
    forall digest | digest in t.rows ensures digest in s.rows || IsDone(t, digest, store) {
      RecordsAreDone(s, es, store, digest);
    }
  }

  lemma {:induction false} RowsStay(s: State, es: seq<Event>, store: Store)
    requires Legal(s, es, store)
    ensures s.rows <= Run(s, es, store).rows
    decreases |es|
  {
    if es != [] {
      RowsStay(Apply(s, es[0], store), es[1..], store);
    }
  }

  // --- what is left behind ---------------------------------------------------------------

  ghost predicate StrandedByKills(s: State, store: Store) {
    forall w :: w in s.writers && TempPath(store, s.writers[w]) in s.files ==>
      Staging(s.writers[w]) || s.writers[w].stage.Killed?
  }

  lemma StepStrandsByKills(s: State, e: Event, store: Store)
    requires PrivateTemps(s) && StrandedByKills(s, store) && Enabled(s, e)
    ensures PrivateTemps(Apply(s, e, store)) && StrandedByKills(Apply(s, e, store), store)
  {
    var t := Apply(s, e, store);
    forall v | v in t.writers && TempPath(store, t.writers[v]) in t.files
      ensures Staging(t.writers[v]) || t.writers[v].stage.Killed?
    {
      assert TempPath(store, s.writers[v]) == TempPath(store, t.writers[v]);
    }
  }

  /** A writer that is not killed takes its temp along, whether it succeeds or
      raises: whatever else happens, only kills leave temps for the collector. */
  lemma {:induction false} OnlyKillsStrandTemps(s: State, es: seq<Event>, store: Store)
    requires PrivateTemps(s) && Legal(s, es, store) && StrandedByKills(s, store)
    ensures StrandedByKills(Run(s, es, store), store)
    decreases |es|
  {
    if es != [] {
      StepStrandsByKills(s, es[0], store);
      OnlyKillsStrandTemps(Apply(s, es[0], store), es[1..], store);
    }
  }

  // --- the age gate --------------------------------------------------------------------

  /** Time does not run past a staging writer's age gate. */
  ghost predicate InTime(s: State, e: Event, store: Store) {
    e.Tick? ==> forall w :: w in s.writers && Staging(s.writers[w])
                  ==> s.clock + e.step - s.writers[w].stage.since <= store.maxAge
  }

  ghost predicate InTimeRun(s: State, es: seq<Event>, store: Store)
    requires Legal(s, es, store)
    decreases |es|
  {
    es != [] ==> InTime(s, es[0], store) && InTimeRun(Apply(s, es[0], store), es[1..], store)
  }

  /** A staging writer's temp is there and young; one not made yet is not there. */
  ghost predicate TempSafe(s: State, w: Writer, store: Store) {
    var temp := TempPath(store, w);
    && (Staging(w) ==>
          && temp in s.files && w.stage.since <= s.files[temp].mtime && w.stage.since <= s.clock
          && s.clock - w.stage.since <= store.maxAge)
    && (w.stage.Arriving? ==> temp !in s.files)
    && (Staging(w) || w.stage.Arriving? ==> forall k :: k in s.sweeps ==> temp !in s.sweeps[k].doomed)
  }

  ghost predicate LiveTempsSafe(s: State, store: Store) {
    && 0 <= store.maxAge
    && (forall w :: w in s.writers ==> TempSafe(s, s.writers[w], store))
    && (forall k :: k in s.sweeps ==> s.sweeps[k].now <= s.clock)
  }

  lemma LiveWriterStep(s: State, e: Event, w: WriterId, store: Store)
    requires Invariant(s, store) && Enabled(s, e) && LiveTempsSafe(s, store)
    requires e == LookUp(w) || e == Replace(w) || e == Raise(w) || e == Record(w) || e == Commit(w)
             || e == Kill(w) || (e.Write? && e.w == w)
    ensures LiveTempsSafe(Apply(s, e, store), store)
  {
    var t := Apply(s, e, store);
    forall v | v in t.writers ensures TempSafe(t, t.writers[v], store) {
      assert TempSafe(s, s.writers[v], store);
    }
  }

  lemma LiveSweepStep(s: State, e: Event, store: Store)
    requires Invariant(s, store) && Enabled(s, e) && LiveTempsSafe(s, store)
    requires e.Tick? || e.StartSweep? || e.Stat? || e.Unlink?
    requires InTime(s, e, store)
    ensures LiveTempsSafe(Apply(s, e, store), store)
  {
    var t := Apply(s, e, store);
    forall v | v in t.writers ensures TempSafe(t, t.writers[v], store) {
      assert TempSafe(s, s.writers[v], store);
    }
  }

  lemma {:induction false} LiveRun(s: State, es: seq<Event>, store: Store)
    requires Invariant(s, store) && LiveTempsSafe(s, store)
    requires Legal(s, es, store) && InTimeRun(s, es, store)
    ensures LiveTempsSafe(Run(s, es, store), store)
    decreases |es|
  {
    if es != [] {
      var e := es[0];
      StepOk(s, e, store);
      if e.Tick? || e.StartSweep? || e.Stat? || e.Unlink? {
        LiveSweepStep(s, e, store);
      } else {
        LiveWriterStep(s, e, e.w, store);
      }
      LiveRun(Apply(s, e, store), es[1..], store);
    }
  }

  /** If no write outlasts the age gate, no sweep ever takes a live writer's temp:
      `replace` always finds it. */
  lemma LiveTempsSurvive(s: State, es: seq<Event>, store: Store)
    requires Initial(s, store) && 0 <= store.maxAge
    requires forall w :: w in s.writers ==> TempPath(store, s.writers[w]) !in s.files
    requires Legal(s, es, store) && InTimeRun(s, es, store)
    ensures var t := Run(s, es, store);
            forall w :: w in t.writers && Staging(t.writers[w]) ==>
              && TempPath(store, t.writers[w]) in t.files
              && forall k :: k in t.sweeps ==> TempPath(store, t.writers[w]) !in t.sweeps[k].doomed
  {
    LiveRun(s, es, store);
  }

  // --- what a complete sweep collects ----------------------------------------------------

  /** The temp of no writer that is still to write or at it: its process died. */
  ghost predicate Stranded(s: State, p: Path, store: Store) {
    && p.Temp? && IsWriterTemp(FileName(p))
    && forall w :: w in s.writers && TempPath(store, s.writers[w]) == p
         ==> !s.writers[w].stage.Arriving? && !Staging(s.writers[w])
  }

  /** From the sweep's start on: gone, still expired, and once looked at doomed. */
  ghost predicate Collecting(s: State, k: SweepId, p: Path, store: Store) {
    && Stranded(s, p, store) && k in s.sweeps
    && (p in s.files ==> IsExpired(s.files[p].mtime, s.sweeps[k].now, store.maxAge))
    && (p in s.sweeps[k].seen && p in s.files ==> p in s.sweeps[k].doomed)
  }

  lemma CollectingStep(s: State, e: Event, k: SweepId, p: Path, store: Store)
    requires Enabled(s, e) && Collecting(s, k, p, store)
    ensures Collecting(Apply(s, e, store), k, p, store)
  {
  }

  lemma {:induction false} CollectingRun(s: State, es: seq<Event>, k: SweepId, p: Path, store: Store)
    requires Legal(s, es, store) && Collecting(s, k, p, store)
    ensures Collecting(Run(s, es, store), k, p, store)
    decreases |es|
  {
    if es != [] {
      CollectingStep(s, es[0], k, p, store);
      CollectingRun(Apply(s, es[0], store), es[1..], k, p, store);
    }
  }

  /** Among running writers and other sweeps: a sweep that has looked at a
      stranded temp past the gate, and has unlinked what it doomed, has taken it. */
  lemma SweepCollectsAmongWriters(s: State, es: seq<Event>, k: SweepId, p: Path, store: Store)
    requires Enabled(s, StartSweep(k)) && Stranded(s, p, store)
    requires p in s.files ==> IsExpired(s.files[p].mtime, s.clock, store.maxAge)
    requires Legal(Apply(s, StartSweep(k), store), es, store)
    requires var sweep := Run(Apply(s, StartSweep(k), store), es, store).sweeps;
             k in sweep && p in sweep[k].seen && p !in sweep[k].doomed
    ensures p !in Run(Apply(s, StartSweep(k), store), es, store).files
  {
    CollectingRun(Apply(s, StartSweep(k), store), es, k, p, store);
  }
}
