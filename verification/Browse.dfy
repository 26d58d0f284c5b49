/** Keyset pagination of the archive: `list_messages` and the walk it supports. */
module Browse {
  import opened Prelude

  type Time = int

  datatype Row = Row(id: nat, account: nat, folders: set<nat>, internalDate: Option<Time>, dateSent: Option<Time>)

  /** COALESCE(internal_date, date_sent): the sort key. */
  function SortTs(r: Row): Option<Time> {
    if r.internalDate.Some? then r.internalDate else r.dateSent
  }

  /** ORDER BY sort_ts DESC NULLS LAST, id DESC */
  predicate Before(a: Row, b: Row) {
    match (SortTs(a), SortTs(b))
    case (Some(x), Some(y)) => x > y || (x == y && a.id > b.id)
    case (Some(_), None) => true
    case (None, Some(_)) => false
    case (None, None) => a.id > b.id
  }

  ghost predicate UniqueIds(rows: set<Row>) {
    forall a, b :: a in rows && b in rows && a.id == b.id ==> a == b
  }

  type Table = t: set<Row> | UniqueIds(t) witness {}

  ghost predicate InOrder(rows: seq<Row>) {
    forall i, j :: 0 <= i < j < |rows| ==> Before(rows[i], rows[j])
  }

  ghost predicate IsFirst(r: Row, rows: set<Row>) {
    r in rows && forall x :: x in rows && x != r ==> Before(r, x)
  }

  lemma {:induction false} FirstExists(rows: Table)
    requires rows != {}
    ensures exists r :: IsFirst(r, rows)
  {
    var x :| x in rows;
    if rows - {x} == {} {
      assert rows == {x};
      assert IsFirst(x, rows);
    } else {
      FirstExists(rows - {x});
      var m :| IsFirst(m, rows - {x});
      var first := if Before(x, m) then x else m;
      forall y | y in rows && y != first ensures Before(first, y) {
        assert y == x || y == m || y in rows - {x};
      }
      assert IsFirst(first, rows);
    }
  }

  ghost function First(rows: Table): (r: Row)
    requires rows != {}
    ensures IsFirst(r, rows)
  {
    FirstExists(rows);
    var r :| IsFirst(r, rows);
    r
  }

  /** The simple form: all of `rows`, in browse order. */
  ghost function SortedRows(rows: Table): (s: seq<Row>)
    ensures InOrder(s) && |s| == |rows|
    ensures forall r :: r in s <==> r in rows
  {
    if rows == {} then []
    else
      var r := First(rows);
      var rest := SortedRows(rows - {r});
      assert forall i :: 0 <= i < |rest| ==> rest[i] in rows - {r};
      [r] + rest
  }

  lemma TailElements(s: seq<Row>)
    requires s != [] && InOrder(s)
    ensures InOrder(s[1..]) && forall r :: r in s[1..] <==> r in s && r != s[0]
  {
    forall r | r in s && r != s[0] ensures r in s[1..] {
      var j :| 0 <= j < |s| && s[j] == r;
      assert r == s[1..][j - 1];
    }
    forall r | r in s[1..] ensures r != s[0] {
      var j :| 1 <= j < |s| && s[j] == r;
      assert Before(s[0], s[j]);
    }
  }

  /** Order and contents leave no choice. */
  lemma {:induction false} InOrderUnique(a: seq<Row>, b: seq<Row>)
    requires InOrder(a) && InOrder(b) && forall r :: r in a <==> r in b
    ensures a == b
    decreases |a|
  {
    assert a != [] ==> a[0] in b;
    assert b != [] ==> b[0] in a;
    if a != [] {
      TailElements(a);
      TailElements(b);
      InOrderUnique(a[1..], b[1..]);
      assert a == [a[0]] + a[1..] && b == [b[0]] + b[1..];
    }
  }

  function Take(s: seq<Row>, n: nat): seq<Row> {
    if |s| <= n then s else s[..n]
  }

  // --- one query --------------------------------------------------------------------

  datatype Cursor = Cursor(ts: Option<Time>, id: nat)

  datatype Filter = Filter(accounts: set<nat>, folders: set<nat>)

  /** The ACL, and a folder filter unless it is empty. */
  predicate Allowed(f: Filter, r: Row) {
    r.account in f.accounts && (f.folders == {} || f.folders * r.folders != {})
  }

  /** The WHERE clause beyond the filter, in its four modes. A row comparison
      with a NULL in it is not true. */
  predicate InMode(cursor: Option<Cursor>, nullTailOnly: bool, r: Row) {
    if nullTailOnly then SortTs(r).None?
    else
      match cursor
      case None => true
      case Some(Cursor(None, id)) => SortTs(r).None? && r.id < id
      case Some(Cursor(Some(ts), id)) =>
        SortTs(r).Some? && (SortTs(r).value < ts || (SortTs(r).value == ts && r.id < id))
  }

  ghost function Matching(t: Table, f: Filter, cursor: Option<Cursor>, nullTailOnly: bool): Table {
    set r | r in t && Allowed(f, r) && InMode(cursor, nullTailOnly, r)
  }

  ghost function FetchRows(t: Table, f: Filter, cursor: Option<Cursor>, nullTailOnly: bool, limit: nat)
    : (rows: seq<Row>)
  {
    Take(SortedRows(Matching(t, f, cursor, nullTailOnly)), limit)
  }

  // --- one page ---------------------------------------------------------------------

  datatype Page = Page(rows: seq<Row>, next: Option<Cursor>)

  function CursorOf(r: Row): Cursor {
    Cursor(SortTs(r), r.id)
  }

  /** An empty request means every allowed account. */
  function EffectiveAccounts(allowed: set<nat>, requested: set<nat>): set<nat> {
    if requested == {} then allowed else allowed * requested
  }

  /** The two statements of one response may see two snapshots: `t`, then `t2`. */
  ghost function PageRows(t: Table, t2: Table, f: Filter, limit: nat, cursor: Option<Cursor>): seq<Row> {
    var rows := FetchRows(t, f, cursor, false, limit + 1);
    if cursor.Some? && cursor.value.ts.Some? && |rows| < limit + 1 then
      rows + FetchRows(t2, f, None, true, limit + 1 - |rows|)
    else rows
  }

  /** At most `limit` of the rows read; the one row too many only says whether to go on. */
  function PageOf(rows: seq<Row>, limit: nat): Page {
    var page := Take(rows, limit);
    Page(page, if |rows| > limit && page != [] then Some(CursorOf(page[|page| - 1])) else None)
  }

  ghost function ListMessages(t: Table, t2: Table, allowed: set<nat>, requested: set<nat>,
                              folders: set<nat>, limit: nat, cursor: Option<Cursor>): Page
  {
    var accounts := EffectiveAccounts(allowed, requested);
    if accounts == {} then Page([], None)
    else PageOf(PageRows(t, t2, Filter(accounts, folders), limit, cursor), limit)
  }

  // --- the walk ---------------------------------------------------------------------

  /** Rows the walk has not passed yet at `cursor`. */
  predicate Ahead(cursor: Option<Cursor>, r: Row) {
    match cursor
    case None => true
    case Some(Cursor(None, id)) => SortTs(r).None? && r.id < id
    case Some(Cursor(Some(ts), id)) =>
      SortTs(r).None? || SortTs(r).value < ts || (SortTs(r).value == ts && r.id < id)
  }

  ghost function Remaining(t: Table, f: Filter, cursor: Option<Cursor>): Table {
    set r | r in t && Allowed(f, r) && Ahead(cursor, r)
  }

  lemma AheadIsBefore(a: Row, b: Row)
    ensures Ahead(Some(CursorOf(a)), b) <==> Before(a, b)
  {
  }

  lemma TakeOfConcat(a: seq<Row>, b: seq<Row>, n: nat)
    ensures Take(a + b, n) == if |a| < n then Take(a, n) + Take(b, n - |a|) else Take(a, n)
  {
  }

  /** Dated rows ahead of a dated cursor come before the whole NULL tail. */
  lemma DatedThenTail(t: Table, f: Filter, cursor: Cursor)
    requires cursor.ts.Some?
    ensures SortedRows(Matching(t, f, Some(cursor), false)) + SortedRows(Matching(t, f, None, true))
            == SortedRows(Remaining(t, f, Some(cursor)))
  {
    var dated := SortedRows(Matching(t, f, Some(cursor), false));
    var tail := SortedRows(Matching(t, f, None, true));
    var all := dated + tail;
    forall i, j | 0 <= i < j < |all| ensures Before(all[i], all[j]) {
      if i < |dated| <= j {
        assert dated[i] in dated && tail[j - |dated|] in tail;
      }
    }
    forall r ensures r in all <==> r in Remaining(t, f, Some(cursor)) {
      assert r in all <==> r in dated || r in tail;
    }
    InOrderUnique(all, SortedRows(Remaining(t, f, Some(cursor))));
  }

  /** The fast form agrees with the simple one: with one snapshot, the rows read
      are the first limit + 1 of what lies ahead, whichever mode fetched them. */
  lemma PageIsSliceOfList(t: Table, f: Filter, limit: nat, cursor: Option<Cursor>)
    ensures PageRows(t, t, f, limit, cursor) == Take(SortedRows(Remaining(t, f, cursor)), limit + 1)
  {
    if cursor.Some? && cursor.value.ts.Some? {
      DatedThenTail(t, f, cursor.value);
      var dated := SortedRows(Matching(t, f, cursor, false));
      var tail := SortedRows(Matching(t, f, None, true));
      TakeOfConcat(dated, tail, limit + 1);
    } else {
      assert Matching(t, f, cursor, false) == Remaining(t, f, cursor);
    }
  }

  lemma BeforeIsTransitive(cursor: Option<Cursor>, a: Row, b: Row)
    requires Ahead(cursor, a) && Before(a, b)
    ensures Ahead(cursor, b)
  {
  }

  lemma RestIsBehind(all: seq<Row>, k: nat, r: Row)
    requires InOrder(all) && 1 <= k <= |all|
    ensures r in all[k..] <==> r in all && Before(all[k - 1], r)
  {
    if r in all {
      var j :| 0 <= j < |all| && all[j] == r;
      if j >= k {
        assert all[k..][j - k] == r;
      } else {
        assert j < k - 1 ==> Before(all[j], all[k - 1]);
      }
    }
  }

  /** After a full page, what lies ahead is what the list has left. */
  lemma NextCursorDrops(t: Table, f: Filter, limit: nat, cursor: Option<Cursor>)
    requires limit >= 1 && limit < |SortedRows(Remaining(t, f, cursor))|
    ensures var all := SortedRows(Remaining(t, f, cursor));
            SortedRows(Remaining(t, f, Some(CursorOf(all[limit - 1])))) == all[limit..]
  {
    var all := SortedRows(Remaining(t, f, cursor));
    var last := all[limit - 1];
    var left := Remaining(t, f, Some(CursorOf(last)));
    assert last in all;
    forall r ensures r in all[limit..] <==> r in left {
      RestIsBehind(all, limit, r);
      AheadIsBefore(last, r);
      if Before(last, r) {
        BeforeIsTransitive(cursor, last, r);
      }
    }
    InOrderUnique(SortedRows(left), all[limit..]);
  }

  /** One row more than a page holds is enough to know whether the list goes on. */
  lemma PageOfTake(all: seq<Row>, limit: nat)
    requires limit >= 1
    ensures PageOf(Take(all, limit + 1), limit)
            == Page(Take(all, limit), if |all| > limit then Some(CursorOf(all[limit - 1])) else None)
  {
  }

  /** One response, in terms of the list. */
  lemma ListMessagesIsSlice(t: Table, allowed: set<nat>, requested: set<nat>, folders: set<nat>,
                            limit: nat, cursor: Option<Cursor>)
    requires limit >= 1
    ensures var all := SortedRows(Remaining(t, Filter(EffectiveAccounts(allowed, requested), folders), cursor));
            ListMessages(t, t, allowed, requested, folders, limit, cursor)
            == Page(Take(all, limit), if |all| > limit then Some(CursorOf(all[limit - 1])) else None)
  {
    var f := Filter(EffectiveAccounts(allowed, requested), folders);
    var all := SortedRows(Remaining(t, f, cursor));
    if f.accounts == {} {
      assert Remaining(t, f, cursor) == {};
      assert all == [];
    } else {
      PageIsSliceOfList(t, f, limit, cursor);
      PageOfTake(all, limit);
    }
  }

  /** A client following `next_cursor` over an archive that does not change. */
  ghost function Walk(t: Table, allowed: set<nat>, requested: set<nat>, folders: set<nat>,
                      limit: nat, cursor: Option<Cursor>): seq<Row>
    requires limit >= 1
    decreases |Remaining(t, Filter(EffectiveAccounts(allowed, requested), folders), cursor)|
  {
    var f := Filter(EffectiveAccounts(allowed, requested), folders);
    var page := ListMessages(t, t, allowed, requested, folders, limit, cursor);
    if page.next.None? then page.rows
    else
      ListMessagesIsSlice(t, allowed, requested, folders, limit, cursor);
      NextCursorDrops(t, f, limit, cursor);
      page.rows + Walk(t, allowed, requested, folders, limit, page.next)
  }

  /** `all` is the list of what lies ahead of `cursor`. */
  ghost predicate IsList(all: seq<Row>, t: Table, f: Filter, cursor: Option<Cursor>) {
    InOrder(all) && forall r :: r in all <==> r in Remaining(t, f, cursor)
  }

  lemma WalkUnfolds(t: Table, allowed: set<nat>, requested: set<nat>, folders: set<nat>,
                    limit: nat, cursor: Option<Cursor>, all: seq<Row>)
    requires limit >= 1
    requires IsList(all, t, Filter(EffectiveAccounts(allowed, requested), folders), cursor)
    ensures Walk(t, allowed, requested, folders, limit, cursor)
            == if |all| <= limit then all
               else all[..limit] + Walk(t, allowed, requested, folders, limit, Some(CursorOf(all[limit - 1])))
  {
    var f := Filter(EffectiveAccounts(allowed, requested), folders);
    InOrderUnique(all, SortedRows(Remaining(t, f, cursor)));
    ListMessagesIsSlice(t, allowed, requested, folders, limit, cursor);
  }

  lemma RestIsList(t: Table, f: Filter, limit: nat, cursor: Option<Cursor>, all: seq<Row>)
    requires limit >= 1 && IsList(all, t, f, cursor) && |all| > limit
    ensures IsList(all[limit..], t, f, Some(CursorOf(all[limit - 1])))
  {
    InOrderUnique(all, SortedRows(Remaining(t, f, cursor)));
    NextCursorDrops(t, f, limit, cursor);
  }

  lemma Rejoin(all: seq<Row>, n: nat)
    requires n <= |all|
    ensures all[..n] + all[n..] == all
  {
  }

  lemma {:induction false} WalkIsAll(t: Table, allowed: set<nat>, requested: set<nat>,
                                     folders: set<nat>, limit: nat, cursor: Option<Cursor>, all: seq<Row>)
    requires limit >= 1
    requires IsList(all, t, Filter(EffectiveAccounts(allowed, requested), folders), cursor)
    ensures Walk(t, allowed, requested, folders, limit, cursor) == all
    decreases |all|
  {
    WalkUnfolds(t, allowed, requested, folders, limit, cursor, all);
    if |all| > limit {
      var next := Some(CursorOf(all[limit - 1]));
      RestIsList(t, Filter(EffectiveAccounts(allowed, requested), folders), limit, cursor, all);
      WalkIsAll(t, allowed, requested, folders, limit, next, all[limit..]);
      Rejoin(all, limit);
    }
  }

  /** The walk ends, and its pages put together are the filtered archive in
      order, every row once. */
  lemma WalkIsTheList(t: Table, allowed: set<nat>, requested: set<nat>, folders: set<nat>, limit: nat)
    requires limit >= 1
    ensures Walk(t, allowed, requested, folders, limit, None)
            == SortedRows(set r | r in t && Allowed(Filter(EffectiveAccounts(allowed, requested), folders), r))
  {
    var f := Filter(EffectiveAccounts(allowed, requested), folders);
    var rows: Table := set r | r in t && Allowed(f, r);
    assert rows == Remaining(t, f, None);
    WalkIsAll(t, allowed, requested, folders, limit, None, SortedRows(rows));
  }

  // --- what a client asked for and may see ----------------------------------------------

  /** Of an account the ACL allows and, if any are named, the client named; in one
      of the folders asked for, if any are. */
  ghost predicate IsVisible(r: Row, allowed: set<nat>, requested: set<nat>, folders: set<nat>) {
    && r.account in allowed
    && (requested == {} || r.account in requested)
    && (folders == {} || exists x :: x in folders && x in r.folders)
  }

  /** Newest first by the server's date, else the sender's; undated rows last; the
      higher id first among equals. */
  predicate ComesFirst(a: Row, b: Row) {
    if b.internalDate.None? && b.dateSent.None? then
      a.internalDate.Some? || a.dateSent.Some? || a.id > b.id
    else
      var newer := if b.internalDate.Some? then b.internalDate.value else b.dateSent.value;
      || (a.internalDate.Some? && (a.internalDate.value > newer || (a.internalDate.value == newer && a.id > b.id)))
      || (a.internalDate.None? && a.dateSent.Some?
          && (a.dateSent.value > newer || (a.dateSent.value == newer && a.id > b.id)))
  }

  lemma OrderIsNewestFirst(a: Row, b: Row)
    ensures Before(a, b) <==> ComesFirst(a, b)
  {
  }

  /** The walk shows exactly what is visible, newest first. */
  lemma WalkShowsExactly(t: Table, allowed: set<nat>, requested: set<nat>, folders: set<nat>, limit: nat)
    requires limit >= 1
    ensures var rows := Walk(t, allowed, requested, folders, limit, None);
            && (forall r :: r in rows <==> r in t && IsVisible(r, allowed, requested, folders))
            && (forall i, j :: 0 <= i < j < |rows| ==> ComesFirst(rows[i], rows[j]))
  {
    WalkIsTheList(t, allowed, requested, folders, limit);
    var f := Filter(EffectiveAccounts(allowed, requested), folders);
    forall r ensures Allowed(f, r) <==> IsVisible(r, allowed, requested, folders) {
      AllowedIsVisible(r, allowed, requested, folders);
    }
    var rows := Walk(t, allowed, requested, folders, limit, None);
    forall i, j | 0 <= i < j < |rows| ensures ComesFirst(rows[i], rows[j]) {
      OrderIsNewestFirst(rows[i], rows[j]);
    }
  }

  lemma AllowedIsVisible(r: Row, allowed: set<nat>, requested: set<nat>, folders: set<nat>)
    ensures Allowed(Filter(EffectiveAccounts(allowed, requested), folders), r)
            <==> IsVisible(r, allowed, requested, folders)
  {
    if x :| x in folders && x in r.folders {
      assert x in folders * r.folders;
    }
  }

  /** No page, whatever its cursor and whatever changes between its statements,
      shows a row outside the ACL or the request. */
  lemma PagesStayVisible(t: Table, t2: Table, allowed: set<nat>, requested: set<nat>, folders: set<nat>,
                         limit: nat, cursor: Option<Cursor>, r: Row)
    requires r in ListMessages(t, t2, allowed, requested, folders, limit, cursor).rows
    ensures (r in t || r in t2) && IsVisible(r, allowed, requested, folders)
  {
    var f := Filter(EffectiveAccounts(allowed, requested), folders);
    var rows := PageRows(t, t2, f, limit, cursor);
    assert r in rows;
    var first, tail := PageRowsIsFill(t, t2, f, limit, cursor);
    assert r in first || r in tail;
    AllowedIsVisible(r, allowed, requested, folders);
  }

  // --- an archive that changes between pages, and between two statements -----------------

  datatype Progress = Progress(rows: seq<Row>, at: Option<Cursor>, done: bool)

  /** One page per pair of snapshots, until the cursor runs out. */
  ghost function WalkOver(ts: seq<(Table, Table)>, f: Filter, limit: nat, cursor: Option<Cursor>): Progress
    requires f.accounts != {}
    decreases |ts|
  {
    if ts == [] then Progress([], cursor, false)
    else
      var page := ListMessages(ts[0].0, ts[0].1, f.accounts, {}, f.folders, limit, cursor);
      if page.next.None? then Progress(page.rows, cursor, true)
      else
        var rest := WalkOver(ts[1..], f, limit, page.next);
        rest.(rows := page.rows + rest.rows)
  }

  ghost predicate Throughout(r: Row, ts: seq<(Table, Table)>, f: Filter) {
    Allowed(f, r) && forall i :: 0 <= i < |ts| ==> r in ts[i].0 && r in ts[i].1
  }

  /** `n` rows from `first`, filled up from `tail`. */
  function Fill(first: seq<Row>, tail: seq<Row>, n: nat): seq<Row> {
    Take(first, n) + if |first| < n then Take(tail, n - |first|) else []
  }

  /** The two statements of a response as lists: `first`, and `tail` where a
      dated cursor lets the response run on into the NULL tail. */
  ghost predicate AreParts(first: seq<Row>, tail: seq<Row>, t: Table, t2: Table, f: Filter,
                           cursor: Option<Cursor>) {
    && InOrder(first) && InOrder(tail)
    && (forall r :: r in first <==> r in Matching(t, f, cursor, false))
    && (forall r :: r in tail <==>
          cursor.Some? && cursor.value.ts.Some? && r in Matching(t2, f, None, true))
  }

  lemma PageRowsIsFill(t: Table, t2: Table, f: Filter, limit: nat, cursor: Option<Cursor>)
    returns (first: seq<Row>, tail: seq<Row>)
    ensures AreParts(first, tail, t, t2, f, cursor)
    ensures PageRows(t, t2, f, limit, cursor) == Fill(first, tail, limit + 1)
  {
    first := SortedRows(Matching(t, f, cursor, false));
    tail := [];
    if cursor.Some? && cursor.value.ts.Some? {
      tail := SortedRows(Matching(t2, f, None, true));
    }
  }

  lemma PartsOk(first: seq<Row>, tail: seq<Row>, t: Table, t2: Table, f: Filter, cursor: Option<Cursor>)
    requires AreParts(first, tail, t, t2, f, cursor)
    ensures forall x, y :: x in first && y in tail ==> Before(x, y)
    ensures forall x :: x in first || x in tail ==> Ahead(cursor, x)
    ensures forall r :: r in t && r in t2 && Allowed(f, r) && Ahead(cursor, r) ==> r in first || r in tail
  {
  }

  /** The rows read for one response: in order, ahead of the cursor, and a row
      present in both snapshots is missed only for a full set of earlier rows. */
  lemma PageRowsOk(t: Table, t2: Table, f: Filter, limit: nat, cursor: Option<Cursor>)
    ensures var rows := PageRows(t, t2, f, limit, cursor);
            && InOrder(rows) && |rows| <= limit + 1
            && (forall x :: x in rows ==> Ahead(cursor, x))
            && (forall r :: r in t && r in t2 && Allowed(f, r) && Ahead(cursor, r) && r !in rows
                  ==> |rows| == limit + 1 && forall x :: x in rows ==> Before(x, r))
  {
    var first, tail := PageRowsIsFill(t, t2, f, limit, cursor);
    PartsOk(first, tail, t, t2, f, cursor);
  }

  lemma LimitSplits(rows: seq<Row>, limit: nat, r: Row)
    requires InOrder(rows) && 1 <= limit && |rows| <= limit + 1
    requires r !in rows ==> |rows| == limit + 1 && forall x :: x in rows ==> Before(x, r)
    ensures var page := PageOf(rows, limit);
            && (page.next.None? ==> r in page.rows)
            && (page.next.Some? ==> (r in page.rows <==> !Ahead(page.next, r)))
  {
    if |rows| > limit {
      AheadIsBefore(rows[limit - 1], r);
      if r in rows {
        var j :| 0 <= j < |rows| && rows[j] == r;
        if j < limit {
          assert rows[..limit][j] == r;
        }
      }
    }
  }

  /** In order, ahead of the cursor asked with, and `next` is its last row. */
  ghost predicate IsPage(page: Page, cursor: Option<Cursor>) {
    && InOrder(page.rows) && (forall x :: x in page.rows ==> Ahead(cursor, x))
    && (page.next.Some? ==>
          && page.rows != [] && page.next == Some(CursorOf(page.rows[|page.rows| - 1]))
          && Ahead(cursor, page.rows[|page.rows| - 1]))
  }

  /** One step of the walk splits what a client has seen from what is ahead. */
  lemma PageSplits(t: Table, t2: Table, f: Filter, limit: nat, cursor: Option<Cursor>, r: Row)
    requires f.accounts != {} && limit >= 1
    requires r in t && r in t2 && Allowed(f, r) && Ahead(cursor, r)
    ensures var page := ListMessages(t, t2, f.accounts, {}, f.folders, limit, cursor);
            && (page.next.None? ==> r in page.rows)
            && (page.next.Some? ==> (r in page.rows <==> !Ahead(page.next, r)))
  {
    PageRowsOk(t, t2, f, limit, cursor);
    LimitSplits(PageRows(t, t2, f, limit, cursor), limit, r);
  }

  lemma PageOrdered(t: Table, t2: Table, f: Filter, limit: nat, cursor: Option<Cursor>)
    requires f.accounts != {} && limit >= 1
    ensures IsPage(ListMessages(t, t2, f.accounts, {}, f.folders, limit, cursor), cursor)
  {
    PageRowsOk(t, t2, f, limit, cursor);
  }

  /** Whatever is inserted, deleted or moved around it: a row that is there
      throughout comes up exactly once, as soon as the walk has passed it. */
  lemma {:induction false} EveryStableRowOnce(ts: seq<(Table, Table)>, f: Filter, limit: nat,
                                              cursor: Option<Cursor>, r: Row)
    requires f.accounts != {} && limit >= 1
    requires Throughout(r, ts, f) && Ahead(cursor, r)
    ensures var p := WalkOver(ts, f, limit, cursor);
            r in p.rows <==> p.done || !Ahead(p.at, r)
    decreases |ts|
  {
    if ts != [] {
      PageSplits(ts[0].0, ts[0].1, f, limit, cursor, r);
      PageOrdered(ts[0].0, ts[0].1, f, limit, cursor);
      var page := ListMessages(ts[0].0, ts[0].1, f.accounts, {}, f.folders, limit, cursor);
      if page.next.Some? {
        WalkInOrder(ts[1..], f, limit, page.next);
        if Ahead(page.next, r) {
          EveryStableRowOnce(ts[1..], f, limit, page.next, r);
        } else {
          PassedStaysPassed(ts[1..], f, limit, page.next, r);
        }
      }
    }
  }

  lemma {:induction false} PassedStaysPassed(ts: seq<(Table, Table)>, f: Filter, limit: nat,
                                             cursor: Option<Cursor>, r: Row)
    requires f.accounts != {} && limit >= 1 && !Ahead(cursor, r)
    ensures var p := WalkOver(ts, f, limit, cursor);
            r !in p.rows && !Ahead(p.at, r)
    decreases |ts|
  {
    if ts != [] {
      PageOrdered(ts[0].0, ts[0].1, f, limit, cursor);
      var page := ListMessages(ts[0].0, ts[0].1, f.accounts, {}, f.folders, limit, cursor);
      if page.next.Some? {
        var last := page.rows[|page.rows| - 1];
        AheadIsBefore(last, r);
        if Before(last, r) { BeforeIsTransitive(cursor, last, r); }
        PassedStaysPassed(ts[1..], f, limit, page.next, r);
      }
    }
  }

  /** Pages that follow on from each other put together. */
  lemma PageThenRest(page: Page, rest: seq<Row>, cursor: Option<Cursor>)
    requires IsPage(page, cursor) && page.next.Some?
    requires InOrder(rest) && forall x :: x in rest ==> Ahead(page.next, x)
    ensures InOrder(page.rows + rest) && forall x :: x in page.rows + rest ==> Ahead(cursor, x)
  {
    var last := page.rows[|page.rows| - 1];
    forall x | x in rest ensures Ahead(cursor, x) && Before(last, x) {
      AheadIsBefore(last, x);
      BeforeIsTransitive(cursor, last, x);
    }
    var all := page.rows + rest;
    forall i, j | 0 <= i < j < |all| ensures Before(all[i], all[j]) {
      if i < |page.rows| <= j {
        assert all[j] in rest;
        assert i == |page.rows| - 1 || Before(page.rows[i], last);
      }
    }
  }

  /** No row twice, ever: the whole walk goes down the order, from the cursor on. */
  lemma {:induction false} WalkInOrder(ts: seq<(Table, Table)>, f: Filter, limit: nat, cursor: Option<Cursor>)
    requires f.accounts != {} && limit >= 1
    ensures var p := WalkOver(ts, f, limit, cursor);
            InOrder(p.rows) && forall x :: x in p.rows ==> Ahead(cursor, x)
    decreases |ts|
  {
    if ts != [] {
      PageOrdered(ts[0].0, ts[0].1, f, limit, cursor);
      var page := ListMessages(ts[0].0, ts[0].1, f.accounts, {}, f.folders, limit, cursor);
      if page.next.Some? {
        WalkInOrder(ts[1..], f, limit, page.next);
        PageThenRest(page, WalkOver(ts[1..], f, limit, page.next).rows, cursor);
      }
    }
  }
}
