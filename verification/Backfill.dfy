/** `backfill_internal_date`: the earliest INTERNALDATE any readable mailbox reports. */
module Backfill {
  import opened Prelude
  import opened Uids

  type Time = int
  type MessageId = nat

  /** One mailbox: its labels (UNIQUE (mailbox_id, uid)), its stored UIDVALIDITY,
      and what the server does with it. `stored` is what the server has: the UIDs
      there are, each with its INTERNALDATE if that is usable. `fetch` answers a
      FETCH: pairs of a UID and a date, in any order. */
  datatype Mailbox = Mailbox(
    labels: map<Uid, MessageId>, uidvalidity: Option<nat>,
    selectable: bool, serverUidvalidity: Option<nat>,
    stored: map<Uid, Option<Time>>, fetch: seq<Uid> -> seq<(Uid, Option<Time>)>)

  /** FETCH answers for every UID asked about that is there, and only the truth. */
  ghost predicate Honest(m: Mailbox) {
    forall chunk ::
      && (forall u :: u in chunk && u in m.stored ==> (u, m.stored[u]) in m.fetch(chunk))
      && (forall item :: item in m.fetch(chunk) ==> item.0 in m.stored && item.1 == m.stored[item.0])
  }

  const BATCH_SIZE: nat := 50

  type Dates = map<MessageId, Option<Time>>   // messages.internal_date

  predicate Readable(m: Mailbox) {
    m.selectable && (m.serverUidvalidity.Some? && m.uidvalidity.Some? ==> m.serverUidvalidity == m.uidvalidity)
  }

  // --- what a mailbox reports ------------------------------------------------------

  function FirstChunk(uids: seq<Uid>): seq<Uid> {
    uids[..Min(BATCH_SIZE, |uids|)]
  }

  function Chunks(uids: seq<Uid>): seq<seq<Uid>>
    decreases |uids|
  {
    if uids == [] then [] else [FirstChunk(uids)] + Chunks(uids[|FirstChunk(uids)|..])
  }

  function Responses(m: Mailbox, chunks: seq<seq<Uid>>): seq<(Uid, Option<Time>)>
    decreases |chunks|
  {
    if chunks == [] then [] else m.fetch(chunks[0]) + Responses(m, chunks[1..])
  }

  /** What a mailbox answers about its rows. */
  function Answered(m: Mailbox, rows: map<Uid, MessageId>): seq<(Uid, Option<Time>)> {
    Responses(m, Chunks(Sorted(rows.Keys)))
  }

  datatype Pass = Pass(
    dates: Dates, original: Dates, scanned: set<MessageId>, answered: set<MessageId>,
    earliest: map<MessageId, Time>, skipped: seq<nat>)

  /** The labels a mailbox contributes: every message, or those without a date
      when read together with those already taken up. */
  function Rows(m: Mailbox, p: Pass, refetch: bool): map<Uid, MessageId> {
    map uid | uid in m.labels && m.labels[uid] in p.dates
              && (refetch || p.dates[m.labels[uid]].None? || m.labels[uid] in p.original)
      :: m.labels[uid]
  }

  function Take(p: Pass, rows: map<Uid, MessageId>): Pass {
    p.(original := p.original + map id | id in rows.Values && id !in p.original && id in p.dates :: p.dates[id],
       scanned := p.scanned + rows.Values)
  }

  /** One pair of a FETCH response. */
  function Answer(p: Pass, rows: map<Uid, MessageId>, item: (Uid, Option<Time>)): Pass {
    if item.0 !in rows then p
    else
      var id := rows[item.0];
      var p := p.(answered := p.answered + {id});
      match item.1
      case None => p
      case Some(when) =>
        if id !in p.earliest || when < p.earliest[id] then p.(earliest := p.earliest[id := when]) else p
  }

  function Answers(p: Pass, rows: map<Uid, MessageId>, items: seq<(Uid, Option<Time>)>): Pass
    decreases |items|
  {
    if items == [] then p
    else Answer(Answers(p, rows, items[..|items| - 1]), rows, items[|items| - 1])
  }

  lemma {:induction false} AnswersConcat(p: Pass, rows: map<Uid, MessageId>,
                                         a: seq<(Uid, Option<Time>)>, b: seq<(Uid, Option<Time>)>)
    ensures Answers(p, rows, a + b) == Answers(Answers(p, rows, a), rows, b)
    decreases |b|
  {
    if b == [] {
      assert a + b == a;
    } else {
      AnswersConcat(p, rows, a, b[..|b| - 1]);
      assert (a + b)[..|a + b| - 1] == a + b[..|b| - 1];
    }
  }

  /** UPDATE for each message this mailbox lowered. */
  function Write(before: Pass, p: Pass): Pass {
    p.(dates := map id | id in p.dates ::
         if id in p.earliest && (id !in before.earliest || p.earliest[id] != before.earliest[id])
         then Some(p.earliest[id]) else p.dates[id])
  }

  function OneMailbox(p: Pass, m: Mailbox, index: nat, refetch: bool): Pass {
    var rows := Rows(m, p, refetch);
    if rows == map[] then p
    else if !Readable(m) then p.(skipped := p.skipped + [index])
    else
      var taken := Take(p, rows);
      Write(taken, Answers(taken, rows, Answered(m, rows)))
  }

  function AllMailboxes(dates: Dates, ms: seq<Mailbox>, refetch: bool): Pass
    decreases |ms|
  {
    if ms == [] then Pass(dates, map[], {}, {}, map[], [])
    else OneMailbox(AllMailboxes(dates, ms[..|ms| - 1], refetch), ms[|ms| - 1], |ms| - 1, refetch)
  }

  datatype Result = Result(scanned: nat, updated: nat, missing: nat, unusable: nat, skipped: seq<nat>)

  function Changed(p: Pass): set<MessageId> {
    set id | id in p.earliest && (id in p.original ==> p.original[id] != Some(p.earliest[id]))
  }

  function Summary(p: Pass): Result {
    Result(|p.scanned|, |Changed(p)|, |p.scanned - p.answered|, |p.answered - p.earliest.Keys|, p.skipped)
  }

  // --- the code ----------------------------------------------------------------------

  class Backfiller {
    var dates: Dates
    var original: Dates
    var scanned: set<MessageId>
    var answered: set<MessageId>
    var earliest: map<MessageId, Time>
    var skipped: seq<nat>

    function State(): Pass
      reads this
    {
      Pass(dates, original, scanned, answered, earliest, skipped)
    }

    method TakeResponse(items: seq<(Uid, Option<Time>)>, rows: map<Uid, MessageId>)
      modifies this
      ensures State() == Answers(old(State()), rows, items)
    {
      for j := 0 to |items|
        invariant State() == Answers(old(State()), rows, items[..j])
      {
        var (uid, date) := items[j];
        assert items[..j + 1][..j] == items[..j];
        if uid in rows {
          var id := rows[uid];
          answered := answered + {id};
          if date.Some? && (id !in earliest || date.value < earliest[id]) {
            earliest := earliest[id := date.value];
          }
        }
      }
      assert items[..|items|] == items;
    }

    method FetchMailbox(m: Mailbox, rows: map<Uid, MessageId>)
      modifies this
      ensures State() == Answers(old(State()), rows, Answered(m, rows))
    {
      var uids := Sorted(rows.Keys);
      ghost var first := State();
      while uids != []
        invariant Answers(first, rows, Answered(m, rows)) == Answers(State(), rows, Responses(m, Chunks(uids)))
        decreases |uids|
      {
        var chunk := FirstChunk(uids);
        ghost var before := State();
        TakeResponse(m.fetch(chunk), rows);
        uids := uids[|chunk|..];
        AnswersConcat(before, rows, m.fetch(chunk), Responses(m, Chunks(uids)));
      }
    }

    method OneMailboxPass(m: Mailbox, index: nat, refetch: bool)
      modifies this
      ensures State() == OneMailbox(old(State()), m, index, refetch)
    {
      var rows := Rows(m, State(), refetch);
      if rows == map[] {
        return;
      }
      if !Readable(m) {
        skipped := skipped + [index];
        return;
      }
      original := Take(State(), rows).original;
      scanned := scanned + rows.Values;
      ghost var taken := State();
      var known := earliest;
      FetchMailbox(m, rows);
      WriteLowered(known, taken);
    }

    method WriteLowered(known: map<MessageId, Time>, ghost taken: Pass)
      requires taken.earliest == known
      modifies this`dates
      ensures State() == Write(taken, old(State()))
    {
      dates := map id | id in dates ::
        if id in earliest && (id !in known || earliest[id] != known[id]) then Some(earliest[id]) else dates[id];
    }

    method BackfillInternalDate(ms: seq<Mailbox>, refetch: bool) returns (r: Result)
      modifies this
      ensures State() == AllMailboxes(old(dates), ms, refetch)
      ensures r == Summary(State())
    {
      original, scanned, answered, earliest, skipped := map[], {}, {}, map[], [];
      for i := 0 to |ms|
        invariant State() == AllMailboxes(old(dates), ms[..i], refetch)
      {
        assert ms[..i + 1][..i] == ms[..i];
        OneMailboxPass(ms[i], i, refetch);
      }
      assert ms[..|ms|] == ms;
      r := Summary(State());
    }
  }

  // --- what the pass achieves ----------------------------------------------------------

  /** The messages a pass is about: every one, or those without a date. */
  predicate Candidate(dates: Dates, id: MessageId, refetch: bool) {
    id in dates && (refetch || dates[id].None?)
  }

  function CandidateRows(m: Mailbox, dates: Dates, refetch: bool): map<Uid, MessageId> {
    map uid | uid in m.labels && Candidate(dates, m.labels[uid], refetch) :: m.labels[uid]
  }

  ghost predicate Mentions(rows: map<Uid, MessageId>, items: seq<(Uid, Option<Time>)>, id: MessageId, when: Time) {
    exists i :: 0 <= i < |items| && items[i].0 in rows && rows[items[i].0] == id && items[i].1 == Some(when)
  }

  /** A readable mailbox labels the message with a UID that is on the server. */
  ghost predicate Knows(m: Mailbox, dates: Dates, refetch: bool, id: MessageId) {
    Readable(m) && Candidate(dates, id, refetch)
    && exists uid :: uid in m.labels && m.labels[uid] == id && uid in m.stored
  }

  /** And the server dates it `when` there. */
  ghost predicate Reports(m: Mailbox, dates: Dates, refetch: bool, id: MessageId, when: Time) {
    Readable(m) && Candidate(dates, id, refetch)
    && exists uid :: uid in m.labels && m.labels[uid] == id && uid in m.stored && m.stored[uid] == Some(when)
  }

  ghost predicate Reported(ms: seq<Mailbox>, dates: Dates, refetch: bool, id: MessageId, when: Time) {
    exists i :: 0 <= i < |ms| && Reports(ms[i], dates, refetch, id, when)
  }

  ghost predicate Known(ms: seq<Mailbox>, dates: Dates, refetch: bool, id: MessageId) {
    exists i :: 0 <= i < |ms| && Knows(ms[i], dates, refetch, id)
  }

  ghost predicate Holds(ms: seq<Mailbox>, dates: Dates, refetch: bool, id: MessageId) {
    exists i :: 0 <= i < |ms| && Readable(ms[i]) && id in CandidateRows(ms[i], dates, refetch).Values
  }

  // --- every row is asked about -----------------------------------------------------------

  function Joined(chunks: seq<seq<Uid>>): seq<Uid>
    decreases |chunks|
  {
    if chunks == [] then [] else chunks[0] + Joined(chunks[1..])
  }

  lemma {:induction false} ChunksJoin(uids: seq<Uid>)
    ensures Joined(Chunks(uids)) == uids
    ensures forall c :: c in Chunks(uids) ==> 0 < |c| <= 50
    ensures |Chunks(uids)| == (|uids| + 49) / 50
    decreases |uids|
  {
    if uids != [] {
      var first := FirstChunk(uids);
      ChunksJoin(uids[|first|..]);
      assert uids == first + uids[|first|..];
    }
  }

  /** The chunks put together are the UIDs of the rows in ascending order, so each
      is asked about in exactly one FETCH, of at most 50. */
  lemma EveryRowIsAskedOnce(rows: map<Uid, MessageId>)
    ensures var chunks := Chunks(Sorted(rows.Keys));
            && Ascending(Joined(chunks)) && (forall uid :: uid in Joined(chunks) <==> uid in rows)
            && (forall c :: c in chunks ==> 0 < |c| <= 50)
            && |chunks| == (|rows| + 49) / 50
  {
    ChunksJoin(Sorted(rows.Keys));
    assert |rows| == |rows.Keys|;
  }

  lemma {:induction false} ResponsesCover(m: Mailbox, chunks: seq<seq<Uid>>, uid: Uid)
    requires Honest(m) && uid in Joined(chunks) && uid in m.stored
    ensures (uid, m.stored[uid]) in Responses(m, chunks)
    decreases |chunks|
  {
    if uid !in chunks[0] {
      ResponsesCover(m, chunks[1..], uid);
    } else {
      assert (uid, m.stored[uid]) in m.fetch(chunks[0]);
    }
  }

  lemma {:induction false} ResponsesAreTrue(m: Mailbox, chunks: seq<seq<Uid>>, item: (Uid, Option<Time>))
    requires Honest(m) && item in Responses(m, chunks)
    ensures item.0 in m.stored && item.1 == m.stored[item.0]
    decreases |chunks|
  {
    if item !in m.fetch(chunks[0]) {
      ResponsesAreTrue(m, chunks[1..], item);
    }
  }

  lemma AnsweredIsStored(m: Mailbox, rows: map<Uid, MessageId>, item: (Uid, Option<Time>))
    requires Honest(m) && item.0 in rows
    ensures item in Answered(m, rows) <==> item.0 in m.stored && item.1 == m.stored[item.0]
  {
    var chunks := Chunks(Sorted(rows.Keys));
    EveryRowIsAskedOnce(rows);
    if item in Responses(m, chunks) {
      ResponsesAreTrue(m, chunks, item);
    } else if item.0 in m.stored {
      ResponsesCover(m, chunks, item.0);
    }
  }

  /** What is mentioned in the answers is what the server has. */
  lemma MentionsIsReports(m: Mailbox, dates: Dates, refetch: bool, id: MessageId, when: Time)
    requires Honest(m) && Readable(m)
    ensures var rows := CandidateRows(m, dates, refetch);
            Mentions(rows, Answered(m, rows), id, when) <==> Reports(m, dates, refetch, id, when)
  {
    var rows := CandidateRows(m, dates, refetch);
    var items := Answered(m, rows);
    if Mentions(rows, items, id, when) {
      var i :| 0 <= i < |items| && items[i].0 in rows && rows[items[i].0] == id && items[i].1 == Some(when);
      AnsweredIsStored(m, rows, items[i]);
    }
    if Reports(m, dates, refetch, id, when) {
      var uid :| uid in m.labels && m.labels[uid] == id && uid in m.stored && m.stored[uid] == Some(when);
      AnsweredIsStored(m, rows, (uid, Some(when)));
      var i :| 0 <= i < |items| && items[i] == (uid, Some(when));
    }
  }

  ghost predicate Names(rows: map<Uid, MessageId>, items: seq<(Uid, Option<Time>)>, id: MessageId) {
    exists item :: item in items && item.0 in rows && rows[item.0] == id
  }

  lemma NamesIsKnows(m: Mailbox, dates: Dates, refetch: bool, id: MessageId)
    requires Honest(m) && Readable(m)
    ensures var rows := CandidateRows(m, dates, refetch);
            Names(rows, Answered(m, rows), id) <==> Knows(m, dates, refetch, id)
  {
    var rows := CandidateRows(m, dates, refetch);
    if item :| item in Answered(m, rows) && item.0 in rows && rows[item.0] == id {
      AnsweredIsStored(m, rows, item);
    }
    if Knows(m, dates, refetch, id) {
      var uid :| uid in m.labels && m.labels[uid] == id && uid in m.stored;
      AnsweredIsStored(m, rows, (uid, m.stored[uid]));
    }
  }

  lemma {:induction false} AnswersName(p: Pass, rows: map<Uid, MessageId>, items: seq<(Uid, Option<Time>)>,
                                       id: MessageId)
    ensures id in Answers(p, rows, items).answered <==> id in p.answered || Names(rows, items, id)
    decreases |items|
  {
    if items != [] {
      var init, last := items[..|items| - 1], items[|items| - 1];
      assert items == init + [last];
      AnswersName(p, rows, init, id);
    }
  }

  // --- mailbox after mailbox ---------------------------------------------------------------

  /** `earliest` is the minimum of what has been mentioned, on top of `base`. */
  ghost predicate Lowered(base: map<MessageId, Time>, earliest: map<MessageId, Time>,
                          rows: map<Uid, MessageId>, items: seq<(Uid, Option<Time>)>, id: MessageId) {
    && (id in earliest ==>
          && ((id in base && base[id] == earliest[id]) || Mentions(rows, items, id, earliest[id]))
          && (id in base ==> earliest[id] <= base[id]))
    && (id in base ==> id in earliest)
    && (forall when :: Mentions(rows, items, id, when) ==> id in earliest && earliest[id] <= when)
  }

  lemma MentionsSnoc(rows: map<Uid, MessageId>, items: seq<(Uid, Option<Time>)>, item: (Uid, Option<Time>),
                     id: MessageId, when: Time)
    ensures Mentions(rows, items + [item], id, when)
            <==> Mentions(rows, items, id, when)
                 || (item.0 in rows && rows[item.0] == id && item.1 == Some(when))
  {
    var all := items + [item];
    if Mentions(rows, items, id, when) {
      var i :| 0 <= i < |items| && items[i].0 in rows && rows[items[i].0] == id && items[i].1 == Some(when);
      assert all[i] == items[i];
    }
    if item.0 in rows && rows[item.0] == id && item.1 == Some(when) {
      assert all[|items|] == item;
    }
  }

  lemma {:induction false} AnswersLower(p: Pass, rows: map<Uid, MessageId>, items: seq<(Uid, Option<Time>)>,
                                        id: MessageId)
    ensures Lowered(p.earliest, Answers(p, rows, items).earliest, rows, items, id)
    decreases |items|
  {
    if items != [] {
      var init, last := items[..|items| - 1], items[|items| - 1];
      assert items == init + [last];
      AnswersLower(p, rows, init, id);
      forall when ensures Mentions(rows, items, id, when)
            <==> Mentions(rows, init, id, when)
                 || (last.0 in rows && rows[last.0] == id && last.1 == Some(when))
      {
        MentionsSnoc(rows, init, last, id, when);
      }
    }
  }

  lemma {:induction false} AnswersFrame(p: Pass, rows: map<Uid, MessageId>, items: seq<(Uid, Option<Time>)>)
    ensures var r := Answers(p, rows, items);
            && r.dates == p.dates && r.original == p.original && r.scanned == p.scanned && r.skipped == p.skipped
            && p.answered <= r.answered <= p.answered + rows.Values
            && r.earliest.Keys <= p.earliest.Keys + r.answered
    decreases |items|
  {
    if items != [] {
      AnswersFrame(p, rows, items[..|items| - 1]);
    }
  }

  /** Which messages a pass over the mailboxes `ms` took up, and what they had. */
  ghost predicate ScanOk(p: Pass, dates: Dates, ms: seq<Mailbox>, refetch: bool) {
    && p.dates.Keys == dates.Keys && p.original.Keys == p.scanned
    && (forall id :: id in p.original ==> id in dates && p.original[id] == dates[id])
    && (forall id :: id in p.scanned <==> Holds(ms, dates, refetch, id))
    && p.earliest.Keys <= p.answered <= p.scanned
  }

  /** What has been written is the earliest date found so far. */
  ghost predicate DatesOk(p: Pass, dates: Dates) {
    && p.dates.Keys == dates.Keys
    && forall id :: id in dates ==>
         p.dates[id] == if id in p.earliest then Some(p.earliest[id]) else dates[id]
  }

  /** And the earliest found is the earliest reported. */
  ghost predicate EarliestOk(earliest: map<MessageId, Time>, dates: Dates, ms: seq<Mailbox>, refetch: bool) {
    && (forall id :: id in earliest ==> Reported(ms, dates, refetch, id, earliest[id]))
    && (forall id, when :: Reported(ms, dates, refetch, id, when)
          ==> id in earliest && earliest[id] <= when)
  }

  ghost predicate AnsweredOk(answered: set<MessageId>, dates: Dates, ms: seq<Mailbox>, refetch: bool) {
    forall id :: id in answered <==> Known(ms, dates, refetch, id)
  }

  ghost predicate PassOk(p: Pass, dates: Dates, ms: seq<Mailbox>, refetch: bool) {
    && ScanOk(p, dates, ms, refetch) && DatesOk(p, dates)
    && EarliestOk(p.earliest, dates, ms, refetch) && AnsweredOk(p.answered, dates, ms, refetch)
  }

  lemma HoldsCandidates(ms: seq<Mailbox>, dates: Dates, refetch: bool, id: MessageId)
    requires Holds(ms, dates, refetch, id)
    ensures Candidate(dates, id, refetch)
  {
  }

  /** Rows dated earlier in the pass stay candidates: what a mailbox is asked
      does not depend on what the mailboxes before it answered. */
  lemma RowsAreCandidates(p: Pass, dates: Dates, ms: seq<Mailbox>, m: Mailbox, refetch: bool)
    requires PassOk(p, dates, ms, refetch)
    ensures Rows(m, p, refetch) == CandidateRows(m, dates, refetch)
  {
    forall uid | uid in m.labels
      ensures uid in Rows(m, p, refetch) <==> uid in CandidateRows(m, dates, refetch)
    {
      var id := m.labels[uid];
      if id in p.scanned {
        HoldsCandidates(ms, dates, refetch, id);
      }
    }
  }

  lemma HoldsSnoc(ms: seq<Mailbox>, m: Mailbox, dates: Dates, refetch: bool, id: MessageId)
    ensures Holds(ms + [m], dates, refetch, id)
            <==> Holds(ms, dates, refetch, id)
                 || (Readable(m) && id in CandidateRows(m, dates, refetch).Values)
  {
    var all := ms + [m];
    if Holds(ms, dates, refetch, id) {
      var i :| 0 <= i < |ms| && Readable(ms[i]) && id in CandidateRows(ms[i], dates, refetch).Values;
      assert all[i] == ms[i];
    }
    assert all[|ms|] == m;
  }

  lemma ReportedSnoc(ms: seq<Mailbox>, m: Mailbox, dates: Dates, refetch: bool, id: MessageId, when: Time)
    ensures Reported(ms + [m], dates, refetch, id, when)
            <==> Reported(ms, dates, refetch, id, when) || Reports(m, dates, refetch, id, when)
  {
    var all := ms + [m];
    if Reported(ms, dates, refetch, id, when) {
      var i :| 0 <= i < |ms| && Reports(ms[i], dates, refetch, id, when);
      assert all[i] == ms[i];
    }
    assert all[|ms|] == m;
  }

  lemma KnownSnoc(ms: seq<Mailbox>, m: Mailbox, dates: Dates, refetch: bool, id: MessageId)
    ensures Known(ms + [m], dates, refetch, id) <==> Known(ms, dates, refetch, id) || Knows(m, dates, refetch, id)
  {
    var all := ms + [m];
    if Known(ms, dates, refetch, id) {
      var i :| 0 <= i < |ms| && Knows(ms[i], dates, refetch, id);
      assert all[i] == ms[i];
    }
    assert all[|ms|] == m;
  }

  lemma KnowsHasRows(m: Mailbox, dates: Dates, refetch: bool, id: MessageId)
    requires Knows(m, dates, refetch, id)
    ensures Readable(m) && CandidateRows(m, dates, refetch) != map[]
  {
    var uid :| uid in m.labels && m.labels[uid] == id && uid in m.stored;
    assert uid in CandidateRows(m, dates, refetch);
  }

  lemma TakeKeepsOriginals(p: Pass, dates: Dates, rows: map<Uid, MessageId>)
    requires p.dates.Keys == dates.Keys && rows.Values <= dates.Keys
    requires forall id :: id in dates && id !in p.original ==> p.dates[id] == dates[id]
    requires forall id :: id in p.original ==> id in dates && p.original[id] == dates[id]
    ensures Take(p, rows).original.Keys == p.original.Keys + rows.Values
    ensures forall id :: id in Take(p, rows).original ==> id in dates && Take(p, rows).original[id] == dates[id]
  {
  }

  lemma ScanStep(p: Pass, dates: Dates, ms: seq<Mailbox>, m: Mailbox, r: Pass, refetch: bool)
    requires ScanOk(p, dates, ms, refetch) && DatesOk(p, dates) && Readable(m)
    requires r.dates.Keys == p.dates.Keys && r.original == Take(p, CandidateRows(m, dates, refetch)).original
    requires r.scanned == p.scanned + CandidateRows(m, dates, refetch).Values
    requires p.answered <= r.answered <= p.answered + CandidateRows(m, dates, refetch).Values
    requires r.earliest.Keys <= r.answered
    ensures ScanOk(r, dates, ms + [m], refetch)
  {
    TakeKeepsOriginals(p, dates, CandidateRows(m, dates, refetch));
    forall id ensures id in r.scanned <==> Holds(ms + [m], dates, refetch, id) {
      HoldsSnoc(ms, m, dates, refetch, id);
    }
  }

  lemma SkipStep(p: Pass, dates: Dates, ms: seq<Mailbox>, m: Mailbox, refetch: bool)
    requires PassOk(p, dates, ms, refetch)
    requires CandidateRows(m, dates, refetch) == map[] || !Readable(m)
    ensures PassOk(p, dates, ms + [m], refetch)
  {
    forall id ensures Holds(ms + [m], dates, refetch, id) <==> Holds(ms, dates, refetch, id) {
      HoldsSnoc(ms, m, dates, refetch, id);
    }
    forall id ensures !Knows(m, dates, refetch, id)
                      && (Known(ms + [m], dates, refetch, id) <==> Known(ms, dates, refetch, id))
    {
      if Knows(m, dates, refetch, id) {
        KnowsHasRows(m, dates, refetch, id);
      }
      KnownSnoc(ms, m, dates, refetch, id);
    }
    forall id, when ensures Reported(ms + [m], dates, refetch, id, when)
                            <==> Reported(ms, dates, refetch, id, when)
    {
      assert Reports(m, dates, refetch, id, when) ==> Knows(m, dates, refetch, id);
      ReportedSnoc(ms, m, dates, refetch, id, when);
    }
  }

  /** Writing what this mailbox lowered keeps every row at its earliest date. */
  lemma DatesStep(taken: Pass, answered: Pass, dates: Dates)
    requires DatesOk(taken, dates) && answered.dates == taken.dates
    requires forall id :: id in taken.earliest ==> id in answered.earliest
    ensures DatesOk(Write(taken, answered), dates)
  {
  }

  lemma EarliestStep(earliest: map<MessageId, Time>, next: map<MessageId, Time>, dates: Dates,
                     ms: seq<Mailbox>, m: Mailbox, refetch: bool)
    requires EarliestOk(earliest, dates, ms, refetch) && Readable(m) && Honest(m)
    requires var rows := CandidateRows(m, dates, refetch);
             forall id :: Lowered(earliest, next, rows, Answered(m, rows), id)
    ensures EarliestOk(next, dates, ms + [m], refetch)
  {
    var rows := CandidateRows(m, dates, refetch);
    var items := Answered(m, rows);
    forall id | id in next ensures Reported(ms + [m], dates, refetch, id, next[id]) {
      assert Lowered(earliest, next, rows, items, id);
      MentionsIsReports(m, dates, refetch, id, next[id]);
      ReportedSnoc(ms, m, dates, refetch, id, next[id]);
    }
    forall id, when | Reported(ms + [m], dates, refetch, id, when)
      ensures id in next && next[id] <= when
    {
      assert Lowered(earliest, next, rows, items, id);
      MentionsIsReports(m, dates, refetch, id, when);
      ReportedSnoc(ms, m, dates, refetch, id, when);
    }
  }

  lemma AnsweredStep(p: Pass, dates: Dates, ms: seq<Mailbox>, m: Mailbox, refetch: bool)
    requires AnsweredOk(p.answered, dates, ms, refetch) && Readable(m) && Honest(m)
    ensures var rows := CandidateRows(m, dates, refetch);
            AnsweredOk(Answers(p, rows, Answered(m, rows)).answered, dates, ms + [m], refetch)
  {
    var rows := CandidateRows(m, dates, refetch);
    forall id ensures id in Answers(p, rows, Answered(m, rows)).answered <==> Known(ms + [m], dates, refetch, id) {
      AnswersName(p, rows, Answered(m, rows), id);
      NamesIsKnows(m, dates, refetch, id);
      KnownSnoc(ms, m, dates, refetch, id);
    }
  }

  lemma ReadMailboxOk(p: Pass, dates: Dates, ms: seq<Mailbox>, m: Mailbox, refetch: bool)
    requires PassOk(p, dates, ms, refetch) && Readable(m) && Honest(m)
    ensures var rows := CandidateRows(m, dates, refetch);
            var taken := Take(p, rows);
            PassOk(Write(taken, Answers(taken, rows, Answered(m, rows))), dates, ms + [m], refetch)
  {
    var rows := CandidateRows(m, dates, refetch);
    var taken := Take(p, rows);
    var items := Answered(m, rows);
    var answered := Answers(taken, rows, items);
    AnswersFrame(taken, rows, items);
    forall id ensures Lowered(p.earliest, answered.earliest, rows, items, id) {
      AnswersLower(taken, rows, items, id);
    }
    forall id | id in p.earliest ensures id in answered.earliest {
      assert Lowered(p.earliest, answered.earliest, rows, items, id);
    }
    DatesStep(taken, answered, dates);
    EarliestStep(p.earliest, answered.earliest, dates, ms, m, refetch);
    AnsweredStep(taken, dates, ms, m, refetch);
    ScanStep(p, dates, ms, m, Write(taken, answered), refetch);
  }

  lemma OneMailboxOk(p: Pass, dates: Dates, ms: seq<Mailbox>, m: Mailbox, index: nat, refetch: bool)
    requires PassOk(p, dates, ms, refetch) && Honest(m)
    ensures PassOk(OneMailbox(p, m, index, refetch), dates, ms + [m], refetch)
  {
    RowsAreCandidates(p, dates, ms, m, refetch);
    if CandidateRows(m, dates, refetch) == map[] || !Readable(m) {
      SkipStep(p, dates, ms, m, refetch);
    } else {
      ReadMailboxOk(p, dates, ms, m, refetch);
    }
  }

  ghost predicate AllHonest(ms: seq<Mailbox>) {
    forall m :: m in ms ==> Honest(m)
  }

  lemma {:induction false} AllMailboxesOk(dates: Dates, ms: seq<Mailbox>, refetch: bool)
    requires AllHonest(ms)
    ensures PassOk(AllMailboxes(dates, ms, refetch), dates, ms, refetch)
    decreases |ms|
  {
    if ms != [] {
      var init, last := ms[..|ms| - 1], ms[|ms| - 1];
      assert ms == init + [last];
      AllMailboxesOk(dates, init, refetch);
      OneMailboxOk(AllMailboxes(dates, init, refetch), dates, init, last, |init|, refetch);
    }
  }

  /** Every message ends with the earliest date any readable mailbox has for it, if
      it was a candidate and any does; else with the date it had. */
  lemma BackfillFindsEarliest(dates: Dates, ms: seq<Mailbox>, refetch: bool, id: MessageId)
    requires id in dates && AllHonest(ms)
    ensures var final := AllMailboxes(dates, ms, refetch).dates;
            && id in final
            && ((forall when :: !Reported(ms, dates, refetch, id, when)) ==> final[id] == dates[id])
            && (forall when :: Reported(ms, dates, refetch, id, when) ==>
                  && final[id].Some? && final[id].value <= when
                  && Reported(ms, dates, refetch, id, final[id].value))
            && (!Candidate(dates, id, refetch) ==> final[id] == dates[id])
  {
    AllMailboxesOk(dates, ms, refetch);
    var p := AllMailboxes(dates, ms, refetch);
    if !Candidate(dates, id, refetch) && id in p.earliest {
      HoldsCandidates(ms, dates, refetch, id);
    }
  }

  ghost predicate IsUndated(ms: seq<Mailbox>, dates: Dates, refetch: bool, id: MessageId) {
    Known(ms, dates, refetch, id) && forall when :: !Reported(ms, dates, refetch, id, when)
  }

  /** The counts: candidates in a readable mailbox; of these, those on no server,
      and those on one without a usable date; and the rows that really changed. */
  lemma BackfillCountsAddUp(dates: Dates, ms: seq<Mailbox>, refetch: bool, p: Pass, r: Result)
    requires p == AllMailboxes(dates, ms, refetch) && r == Summary(p) && AllHonest(ms)
    ensures r.scanned == |set id | id in dates && Holds(ms, dates, refetch, id)|
    ensures r.missing == |set id | id in dates && Holds(ms, dates, refetch, id) && !Known(ms, dates, refetch, id)|
    ensures r.unusable == |set id | id in dates && IsUndated(ms, dates, refetch, id)|
    ensures r.updated == |set id | id in dates && id in p.dates && p.dates[id] != dates[id]|
    ensures r.scanned == |p.earliest| + r.unusable + r.missing
  {
    AllMailboxesOk(dates, ms, refetch);
    ChangedRows(p, dates, ms, refetch);
    ScannedRows(p, dates, ms, refetch);
    UnusableRows(p, dates, ms, refetch);
    Partition(p.scanned, p.answered, p.earliest.Keys);
  }

  lemma Partition(scanned: set<MessageId>, answered: set<MessageId>, dated: set<MessageId>)
    requires dated <= answered <= scanned
    ensures |scanned| == |dated| + |answered - dated| + |scanned - answered|
  {
    assert scanned == answered + (scanned - answered);
    assert answered == dated + (answered - dated);
  }

  lemma ScannedRows(p: Pass, dates: Dates, ms: seq<Mailbox>, refetch: bool)
    requires PassOk(p, dates, ms, refetch)
    ensures p.scanned == set id | id in dates && Holds(ms, dates, refetch, id)
    ensures p.scanned - p.answered
            == set id | id in dates && Holds(ms, dates, refetch, id) && !Known(ms, dates, refetch, id)
  {
  }

  lemma UnusableRows(p: Pass, dates: Dates, ms: seq<Mailbox>, refetch: bool)
    requires PassOk(p, dates, ms, refetch)
    ensures p.answered - p.earliest.Keys
            == set id | id in dates && IsUndated(ms, dates, refetch, id)
  {
    forall id | id in p.answered ensures id in p.earliest <==> exists when :: Reported(ms, dates, refetch, id, when) {
      assert id in p.earliest ==> Reported(ms, dates, refetch, id, p.earliest[id]);
    }
  }

  lemma ChangedRows(p: Pass, dates: Dates, ms: seq<Mailbox>, refetch: bool)
    requires PassOk(p, dates, ms, refetch)
    ensures Changed(p) == set id | id in dates && id in p.dates && p.dates[id] != dates[id]
  {
  }

  // --- what is left out and said to be --------------------------------------------------------

  /** A refused SELECT, or a UIDVALIDITY both sides
      know and disagree on. */
  predicate IsStale(m: Mailbox) {
    || !m.selectable
    || (m.uidvalidity.Some? && m.serverUidvalidity.Some? && m.uidvalidity.value != m.serverUidvalidity.value)
  }

  ghost predicate IsSkipped(m: Mailbox, dates: Dates, refetch: bool) {
    IsStale(m) && exists uid :: uid in m.labels && Candidate(dates, m.labels[uid], refetch)
  }

  lemma SkippedOnce(p: Pass, dates: Dates, ms: seq<Mailbox>, m: Mailbox, index: nat, refetch: bool)
    requires PassOk(p, dates, ms, refetch)
    ensures OneMailbox(p, m, index, refetch).skipped
            == if IsSkipped(m, dates, refetch) then p.skipped + [index] else p.skipped
  {
    var rows := CandidateRows(m, dates, refetch);
    RowsAreCandidates(p, dates, ms, m, refetch);
    HasCandidate(m, dates, refetch);
    AnswersFrame(Take(p, rows), rows, Answered(m, rows));
  }

  lemma HasCandidate(m: Mailbox, dates: Dates, refetch: bool)
    ensures CandidateRows(m, dates, refetch) != map[]
            <==> exists uid :: uid in m.labels && Candidate(dates, m.labels[uid], refetch)
  {
    var rows := CandidateRows(m, dates, refetch);
    if uid :| uid in m.labels && Candidate(dates, m.labels[uid], refetch) {
      assert uid in rows;
    }
    if rows != map[] {
      var uid :| uid in rows;
    }
  }

  /** Exactly the stale mailboxes with a candidate are skipped and named, in order. */
  lemma {:induction false} SkipsExactlyTheStale(dates: Dates, ms: seq<Mailbox>, refetch: bool)
    requires AllHonest(ms)
    ensures var skipped := AllMailboxes(dates, ms, refetch).skipped;
            && Ascending(skipped)
            && forall i :: i in skipped <==> 0 <= i < |ms| && IsSkipped(ms[i], dates, refetch)
    decreases |ms|
  {
    if ms != [] {
      var n := |ms| - 1;
      SkipsExactlyTheStale(dates, ms[..n], refetch);
      AllMailboxesOk(dates, ms[..n], refetch);
      var p := AllMailboxes(dates, ms[..n], refetch);
      SkippedOnce(p, dates, ms[..n], ms[n], n, refetch);
      forall j | 0 <= j < |p.skipped| ensures p.skipped[j] < n {
        assert p.skipped[j] in p.skipped;
      }
    }
  }
}
