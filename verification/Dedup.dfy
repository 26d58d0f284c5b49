/** `upsert_message` under READ COMMITTED: any number of writers, each storing one
    message in its own transaction, interleaved statement by statement. */
module Dedup {
  import opened Prelude
  import Sync

  type Key = Sync.Key

  type Writer = nat
  type RowId = nat
  type Entry = string   // one element of the attachments column

  /** A row of `messages`; `owner` is the open transaction that inserted it. */
  datatype Row = Row(key: Key, owner: Option<Writer>, attachments: seq<Entry>)

  /** What each writer wants to store. */
  datatype Jobs = Jobs(key: Writer -> Key, attachments: Writer -> seq<Entry>)

  datatype Pc =
    | Start
    | Missed                             // the existence check found nothing
    | Conflicted                         // ON CONFLICT DO NOTHING did nothing
    | Inserted(id: RowId)                // RETURNING gave an id, attachments not written yet
    | Returned(id: RowId, isNew: bool)   // process_one_message is done, its batch is not
    | Committed(id: RowId, isNew: bool)
    | RolledBack
    | Unexpected                         // "the conflict came from an unexpected constraint"

  /** `nextId` is the id sequence, which no rollback takes back. */
  datatype State = State(rows: map<RowId, Row>, nextId: RowId, writers: map<Writer, Pc>)

  datatype Event =
    | Check(w: Writer)
    | Insert(w: Writer)
    | Reread(w: Writer)
    | WriteAttachments(w: Writer)
    | Commit(w: Writer)
    | Abort(w: Writer)

  predicate Sees(s: State, w: Writer, id: RowId, key: Key) {
    id in s.rows && s.rows[id].key == key && (s.rows[id].owner.None? || s.rows[id].owner == Some(w))
  }

  /** The SELECT of `_existing_message_id`, on a fresh statement snapshot. */
  ghost function Existing(s: State, w: Writer, key: Key): Option<RowId> {
    if exists id :: Sees(s, w, id, key) then
      var id :| Sees(s, w, id, key);
      Some(id)
    else None
  }

  /** An insert waits for an open transaction that holds the same key. */
  ghost predicate Blocked(s: State, w: Writer, key: Key) {
    exists id :: id in s.rows && s.rows[id].key == key
      && s.rows[id].owner.Some? && s.rows[id].owner != Some(w)
  }

  /** Either dedup index, or the primary key. */
  ghost predicate Conflicts(s: State, key: Key) {
    s.nextId in s.rows || exists id :: id in s.rows && s.rows[id].key == key
  }

  ghost predicate Enabled(s: State, e: Event, jobs: Jobs) {
    && e.w in s.writers
    && match e
       case Check(w) => s.writers[w] == Start
       case Insert(w) => s.writers[w] == Missed && !Blocked(s, w, jobs.key(w))
       case Reread(w) => s.writers[w] == Conflicted
       case WriteAttachments(w) => s.writers[w].Inserted?
       case Commit(w) => s.writers[w].Returned?
       case Abort(w) => !s.writers[w].Committed?
  }

  ghost function Apply(s: State, e: Event, jobs: Jobs): State
    requires Enabled(s, e, jobs)
  {
    match e
    case Check(w) =>
      var found := Existing(s, w, jobs.key(w));
      s.(writers := s.writers[w := if found.Some? then Returned(found.value, false) else Missed])
    case Insert(w) =>
      if Conflicts(s, jobs.key(w)) then
        s.(nextId := s.nextId + 1, writers := s.writers[w := Conflicted])
      else
        State(s.rows[s.nextId := Row(jobs.key(w), Some(w), [])], s.nextId + 1,
              s.writers[w := Inserted(s.nextId)])
    case Reread(w) =>
      var found := Existing(s, w, jobs.key(w));
      s.(writers := s.writers[w := if found.Some? then Returned(found.value, false) else Unexpected])
    case WriteAttachments(w) =>
      var id := s.writers[w].id;
      if id in s.rows then
        s.(rows := s.rows[id := s.rows[id].(attachments := jobs.attachments(w))],
           writers := s.writers[w := Returned(id, true)])
      else s
    case Commit(w) =>
      s.(rows := map id | id in s.rows ::
                   if s.rows[id].owner == Some(w) then s.rows[id].(owner := None) else s.rows[id],
         writers := s.writers[w := Committed(s.writers[w].id, s.writers[w].isNew)])
    case Abort(w) =>
      s.(rows := map id | id in s.rows && s.rows[id].owner != Some(w) :: s.rows[id],
         writers := s.writers[w := RolledBack])
  }

  ghost predicate Legal(s: State, es: seq<Event>, jobs: Jobs)
    decreases |es|
  {
    es == [] || (Enabled(s, es[0], jobs) && Legal(Apply(s, es[0], jobs), es[1..], jobs))
  }

  ghost function Run(s: State, es: seq<Event>, jobs: Jobs): State
    requires Legal(s, es, jobs)
    decreases |es|
  {
    if es == [] then s else Run(Apply(s, es[0], jobs), es[1..], jobs)
  }

  ghost predicate OneRowPerKey(rows: map<RowId, Row>) {
    forall i, j :: i in rows && j in rows && rows[i].key == rows[j].key ==> i == j
  }

  /** A table nobody is writing to, wherever its id sequence stands. */
  ghost predicate Initial(s: State) {
    && OneRowPerKey(s.rows)
    && (forall id :: id in s.rows ==> s.rows[id].owner.None?)
    && (forall w :: w in s.writers ==> s.writers[w] == Start)
  }

  /** As it does unless a restore left it behind. */
  ghost predicate SequenceAhead(s: State) {
    forall id :: id in s.rows ==> id < s.nextId
  }

  /** Writers whose insert was handed an id that a row already had. */
  ghost function Takers(s: State, es: seq<Event>, jobs: Jobs): set<Writer>
    requires Legal(s, es, jobs)
    decreases |es|
  {
    if es == [] then {}
    else MetTaken(s, es[0]) + Takers(Apply(s, es[0], jobs), es[1..], jobs)
  }

  function MetTaken(s: State, e: Event): set<Writer> {
    if e.Insert? && s.nextId in s.rows then {e.w} else {}
  }

  /** What each program point guarantees about the writer's row. */
  ghost predicate WriterOk(s: State, w: Writer, before: set<RowId>, taken: set<Writer>, jobs: Jobs)
    requires w in s.writers
  {
    var key := jobs.key(w);
    match s.writers[w]
    case Conflicted =>
      w in taken || exists id :: id in s.rows && s.rows[id].key == key && s.rows[id].owner.None?
    case Inserted(id) => id !in before && id in s.rows && s.rows[id] == Row(key, Some(w), [])
    case Returned(id, isNew) =>
      && id in s.rows && s.rows[id].key == key
      && (isNew ==> id !in before && s.rows[id] == Row(key, Some(w), jobs.attachments(w)))
      && (!isNew ==> s.rows[id].owner.None?)
    case Committed(id, isNew) =>
      && id in s.rows && s.rows[id].key == key && s.rows[id].owner.None?
      && (isNew ==> id !in before && s.rows[id].attachments == jobs.attachments(w))
    case Unexpected => w in taken
    case _ => true
  }

  /** Every row has its author: the open transaction that inserted it, or the
      writer that committed it, unless it was there before (`before`). */
  ghost predicate RowOk(s: State, id: RowId, before: set<RowId>)
    requires id in s.rows
  {
    match s.rows[id].owner
    case Some(w) =>
      w in s.writers && (s.writers[w] == Inserted(id) || s.writers[w] == Returned(id, true))
    case None => id in before || exists w :: w in s.writers && s.writers[w] == Committed(id, true)
  }

  ghost predicate HasCommitted(s: State, w: Writer, isNew: bool) {
    w in s.writers && s.writers[w].Committed? && s.writers[w].isNew == isNew
  }

  ghost predicate Invariant(s: State, before: set<RowId>, taken: set<Writer>, jobs: Jobs) {
    && OneRowPerKey(s.rows)
    && (forall id :: id in before ==> id in s.rows && s.rows[id].owner.None?)
    && (forall id :: id in s.rows ==> RowOk(s, id, before))
    && (forall w :: w in s.writers ==> WriterOk(s, w, before, taken, jobs))
    && (forall w, v :: HasCommitted(s, w, true) && HasCommitted(s, v, true) ==>
          s.writers[w].id == s.writers[v].id ==> w == v)
  }

  /** A step of `w` leaves other writers, and rows that are not its own, alone. */
  ghost predicate ActsAs(s: State, t: State, w: Writer) {
    && w in s.writers && t.writers.Keys == s.writers.Keys
    && (forall v :: v in s.writers && v != w ==> t.writers[v] == s.writers[v])
    && (forall id :: id in s.rows && s.rows[id].owner != Some(w) ==>
          id in t.rows && t.rows[id] == s.rows[id])
  }

  lemma OthersOk(s: State, t: State, w: Writer, before: set<RowId>, taken: set<Writer>, jobs: Jobs)
    requires Invariant(s, before, taken, jobs) && ActsAs(s, t, w)
    requires !s.writers[w].Committed?
    ensures forall v :: v in t.writers && v != w ==> WriterOk(t, v, before, taken, jobs)
    ensures forall id :: id in s.rows && s.rows[id].owner != Some(w) ==> RowOk(t, id, before)
  {
    forall v | v in t.writers && v != w ensures WriterOk(t, v, before, taken, jobs) {
      assert WriterOk(s, v, before, taken, jobs);
      if s.writers[v].Conflicted? && v !in taken {
        var id :| id in s.rows && s.rows[id].key == jobs.key(v) && s.rows[id].owner.None?;
        assert id in t.rows && t.rows[id] == s.rows[id];
      }
    }
    forall id | id in s.rows && s.rows[id].owner != Some(w) ensures RowOk(t, id, before) {
      assert RowOk(s, id, before);
      if s.rows[id].owner.None? && id !in before {
        var v :| v in s.writers && s.writers[v] == Committed(id, true);
        assert t.writers[v] == Committed(id, true);
      }
    }
  }

  lemma OwnsNothing(s: State, w: Writer, before: set<RowId>, taken: set<Writer>, jobs: Jobs)
    requires Invariant(s, before, taken, jobs) && w in s.writers
    requires s.writers[w].Start? || s.writers[w].Missed? || s.writers[w].Conflicted?
    ensures forall id :: id in s.rows ==> s.rows[id].owner != Some(w)
  {
    forall id | id in s.rows ensures s.rows[id].owner != Some(w) {
      assert RowOk(s, id, before);
    }
  }

  lemma MoreTaken(s: State, before: set<RowId>, taken: set<Writer>, taken': set<Writer>, jobs: Jobs)
    requires Invariant(s, before, taken, jobs) && taken <= taken'
    ensures Invariant(s, before, taken', jobs)
  {
    forall w | w in s.writers ensures WriterOk(s, w, before, taken', jobs) {
      assert WriterOk(s, w, before, taken, jobs);
    }
  }

  lemma InsertOk(s: State, w: Writer, before: set<RowId>, taken: set<Writer>, jobs: Jobs)
    requires Invariant(s, before, taken, jobs) && Enabled(s, Insert(w), jobs)
    ensures Invariant(Apply(s, Insert(w), jobs), before, taken + MetTaken(s, Insert(w)), jobs)
  {
    var t, taken' := Apply(s, Insert(w), jobs), taken + MetTaken(s, Insert(w));
    MoreTaken(s, before, taken, taken', jobs);
    OthersOk(s, t, w, before, taken', jobs);
    OwnsNothing(s, w, before, taken, jobs);
    if s.nextId !in s.rows && Conflicts(s, jobs.key(w)) {
      var id :| id in s.rows && s.rows[id].key == jobs.key(w);
      assert !Blocked(s, w, jobs.key(w));
      assert t.rows[id].owner.None?;
    }
  }

  lemma CommitRowsOk(s: State, w: Writer, before: set<RowId>, taken: set<Writer>, jobs: Jobs)
    requires Invariant(s, before, taken, jobs) && Enabled(s, Commit(w), jobs)
    ensures var t := Apply(s, Commit(w), jobs);
            && OneRowPerKey(t.rows) && t.rows.Keys == s.rows.Keys
            && (forall id :: id in before ==> id in t.rows && t.rows[id].owner.None?)
            && (forall id :: id in t.rows ==> RowOk(t, id, before))
  {
    var t := Apply(s, Commit(w), jobs);
    OthersOk(s, t, w, before, taken, jobs);
    forall id | id in s.rows && s.rows[id].owner == Some(w) ensures RowOk(t, id, before) {
      assert RowOk(s, id, before);
      assert t.writers[w] == Committed(id, true);
    }
  }

  lemma CommitOk(s: State, w: Writer, before: set<RowId>, taken: set<Writer>, jobs: Jobs)
    requires Invariant(s, before, taken, jobs) && Enabled(s, Commit(w), jobs)
    ensures Invariant(Apply(s, Commit(w), jobs), before, taken, jobs)
  {
    CommitRowsOk(s, w, before, taken, jobs);
    CommitWritersOk(s, w, before, taken, jobs);
  }

  lemma CommitWritersOk(s: State, w: Writer, before: set<RowId>, taken: set<Writer>, jobs: Jobs)
    requires Invariant(s, before, taken, jobs) && Enabled(s, Commit(w), jobs)
    ensures var t := Apply(s, Commit(w), jobs);
            && (forall v :: v in t.writers ==> WriterOk(t, v, before, taken, jobs))
            && (forall v, u :: HasCommitted(t, v, true) && HasCommitted(t, u, true) ==>
                  t.writers[v].id == t.writers[u].id ==> v == u)
  {
    var t := Apply(s, Commit(w), jobs);
    OthersOk(s, t, w, before, taken, jobs);
    assert WriterOk(s, w, before, taken, jobs);
    forall v | HasCommitted(s, v, true) ensures s.writers[v].id != s.writers[w].id || !s.writers[w].isNew {
      assert WriterOk(s, v, before, taken, jobs);
    }
  }

  lemma AbortOk(s: State, w: Writer, before: set<RowId>, taken: set<Writer>, jobs: Jobs)
    requires Invariant(s, before, taken, jobs) && Enabled(s, Abort(w), jobs)
    ensures Invariant(Apply(s, Abort(w), jobs), before, taken, jobs)
  {
    OthersOk(s, Apply(s, Abort(w), jobs), w, before, taken, jobs);
  }

  /** A row `w` sees without having inserted one is a committed row. */
  lemma FoundIsCommitted(s: State, w: Writer, before: set<RowId>, taken: set<Writer>, jobs: Jobs)
    requires Invariant(s, before, taken, jobs) && w in s.writers
    requires s.writers[w] == Start || s.writers[w] == Conflicted
    requires Existing(s, w, jobs.key(w)).Some?
    ensures var id := Existing(s, w, jobs.key(w)).value;
            id in s.rows && s.rows[id].key == jobs.key(w) && s.rows[id].owner.None?
  {
    var id := Existing(s, w, jobs.key(w)).value;
    assert RowOk(s, id, before);
  }

  lemma SelectOk(s: State, e: Event, before: set<RowId>, taken: set<Writer>, jobs: Jobs)
    requires Invariant(s, before, taken, jobs) && Enabled(s, e, jobs)
    requires e.Check? || e.Reread?
    ensures Invariant(Apply(s, e, jobs), before, taken, jobs)
  {
    var t := Apply(s, e, jobs);
    OthersOk(s, t, e.w, before, taken, jobs);
    assert WriterOk(s, e.w, before, taken, jobs);
    if e.Reread? && e.w !in taken {
      var id :| id in s.rows && s.rows[id].key == jobs.key(e.w) && s.rows[id].owner.None?;
      assert Sees(s, e.w, id, jobs.key(e.w));
    }
    if Existing(s, e.w, jobs.key(e.w)).Some? {
      FoundIsCommitted(s, e.w, before, taken, jobs);
    }
    OwnsNothing(s, e.w, before, taken, jobs);
  }

  lemma WriteAttachmentsOk(s: State, w: Writer, before: set<RowId>, taken: set<Writer>, jobs: Jobs)
    requires Invariant(s, before, taken, jobs) && Enabled(s, WriteAttachments(w), jobs)
    ensures Invariant(Apply(s, WriteAttachments(w), jobs), before, taken, jobs)
  {
    var t := Apply(s, WriteAttachments(w), jobs);
    assert WriterOk(s, w, before, taken, jobs);
    OthersOk(s, t, w, before, taken, jobs);
    forall id | id in s.rows && s.rows[id].owner == Some(w) ensures RowOk(t, id, before) {
      assert RowOk(s, id, before);
    }
  }

  lemma StepOk(s: State, e: Event, before: set<RowId>, taken: set<Writer>, jobs: Jobs)
    requires Invariant(s, before, taken, jobs) && Enabled(s, e, jobs)
    ensures Invariant(Apply(s, e, jobs), before, taken + MetTaken(s, e), jobs)
  {
    assert !e.Insert? ==> taken + MetTaken(s, e) == taken;
    match e {
      case Insert(w) => InsertOk(s, w, before, taken, jobs);
      case Commit(w) => CommitOk(s, w, before, taken, jobs);
      case Abort(w) => AbortOk(s, w, before, taken, jobs);
      case WriteAttachments(w) => WriteAttachmentsOk(s, w, before, taken, jobs);
      case Check(_) => SelectOk(s, e, before, taken, jobs);
      case Reread(_) => SelectOk(s, e, before, taken, jobs);
    }
  }

  lemma {:induction false} RunOk(s: State, es: seq<Event>, before: set<RowId>, taken: set<Writer>, jobs: Jobs)
    requires Invariant(s, before, taken, jobs) && Legal(s, es, jobs)
    ensures Invariant(Run(s, es, jobs), before, taken + Takers(s, es, jobs), jobs)
    decreases |es|
  {
    if es == [] {
      assert taken + {} == taken;
    } else {
      var t := Apply(s, es[0], jobs);
      StepOk(s, es[0], before, taken, jobs);
      RunOk(t, es[1..], before, taken + MetTaken(s, es[0]), jobs);
      assert taken + MetTaken(s, es[0]) + Takers(t, es[1..], jobs)
             == taken + (MetTaken(s, es[0]) + Takers(t, es[1..], jobs));
    }
  }

  lemma {:induction false} AheadMeetsNone(s: State, es: seq<Event>, jobs: Jobs)
    requires SequenceAhead(s) && Legal(s, es, jobs)
    ensures Takers(s, es, jobs) == {}
    decreases |es|
  {
    if es != [] {
      AheadMeetsNone(Apply(s, es[0], jobs), es[1..], jobs);
    }
  }

  /** However the writers interleave: one row per key; everyone who committed the
      same key has the same id; a new row has exactly one author, whose
      attachments it carries; and only a writer that was handed a taken id meets
      an unexplained conflict, so none does while the id sequence is ahead. */
  lemma DedupIsLinearizable(s: State, es: seq<Event>, jobs: Jobs)
    requires Initial(s) && Legal(s, es, jobs)
    ensures var t := Run(s, es, jobs);
            && OneRowPerKey(t.rows)
            && (forall w, v :: w in t.writers && v in t.writers
                  && t.writers[w].Committed? && t.writers[v].Committed? && jobs.key(w) == jobs.key(v)
                  ==> t.writers[w].id == t.writers[v].id)
            && (forall w, v :: HasCommitted(t, w, true) && HasCommitted(t, v, true) ==>
                  jobs.key(w) == jobs.key(v) ==> w == v)
            && (forall id :: id in t.rows && id !in s.rows && t.rows[id].owner.None? ==>
                  exists w :: HasCommitted(t, w, true) && t.writers[w].id == id
                    && t.rows[id].key == jobs.key(w) && t.rows[id].attachments == jobs.attachments(w))
    ensures var t := Run(s, es, jobs);
            && (forall w :: w in t.writers && t.writers[w].Unexpected? ==> w in Takers(s, es, jobs))
            && (SequenceAhead(s) ==> forall w :: w in t.writers ==> !t.writers[w].Unexpected?)
  {
    var t, before, taken := Run(s, es, jobs), s.rows.Keys, Takers(s, es, jobs);
    RunOk(s, es, before, {}, jobs);
    assert {} + taken == taken;
    forall id | id in t.rows && id !in s.rows && t.rows[id].owner.None?
      ensures exists w :: HasCommitted(t, w, true) && t.writers[w].id == id
                && t.rows[id].key == jobs.key(w) && t.rows[id].attachments == jobs.attachments(w)
    {
      assert RowOk(t, id, before);
      var w :| w in t.writers && t.writers[w] == Committed(id, true);
      assert WriterOk(t, w, before, taken, jobs) && HasCommitted(t, w, true);
    }
    forall w | w in t.writers && t.writers[w].Unexpected? ensures w in taken {
      assert WriterOk(t, w, before, taken, jobs);
    }
    if SequenceAhead(s) {
      AheadMeetsNone(s, es, jobs);
    }
    forall w, v | w in t.writers && v in t.writers
                  && t.writers[w].Committed? && t.writers[v].Committed? && jobs.key(w) == jobs.key(v)
      ensures t.writers[w].id == t.writers[v].id
    {
      assert WriterOk(t, w, before, taken, jobs) && WriterOk(t, v, before, taken, jobs);
    }
  }

  /** And being handed one is enough: for a key not stored yet and nobody else
      writing, the error is raised exactly when the next id is taken. */
  lemma UnexpectedExactly(s: State, w: Writer, jobs: Jobs)
    requires w in s.writers && s.writers[w] == Start
    requires forall id :: id in s.rows ==> s.rows[id].owner.None? && s.rows[id].key != jobs.key(w)
    ensures var s1 := Apply(s, Check(w), jobs);
            && Enabled(s1, Insert(w), jobs)
            && var s2 := Apply(s1, Insert(w), jobs);
            (s.nextId in s.rows <==>
              Enabled(s2, Reread(w), jobs) && Apply(s2, Reread(w), jobs).writers[w].Unexpected?)
  {
    assert Existing(s, w, jobs.key(w)).None?;
    var s1 := Apply(s, Check(w), jobs);
    var s2 := Apply(s1, Insert(w), jobs);
    if s.nextId in s.rows {
      assert s2.rows == s.rows;
      assert Existing(s2, w, jobs.key(w)).None?;
    }
  }
}
