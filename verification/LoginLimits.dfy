/** The login rate limiter: sliding windows over an audit table, checked before
    and recorded after the password is verified. */
module LoginLimits {
  import opened Prelude

  type Time = int

  datatype Attempt = Attempt(user: string, ip: Option<string>, success: bool, ts: Time)

  datatype Config = Config(
    globalMax: nat, globalWindow: Time, ipMax: nat, ipWindow: Time, userMax: nat, userWindow: Time)

  datatype Cap = GlobalCap | IpCap | UserCap

  // --- counting ------------------------------------------------------------------

  function Count(log: seq<Attempt>, p: Attempt -> bool): (n: nat)
    ensures n <= |log|
    decreases |log|
  {
    if log == [] then 0
    else Count(log[..|log| - 1], p) + if p(log[|log| - 1]) then 1 else 0
  }

  lemma CountSnoc(log: seq<Attempt>, a: Attempt, p: Attempt -> bool)
    ensures Count(log + [a], p) == Count(log, p) + if p(a) then 1 else 0
  {
    assert (log + [a])[..|log|] == log;
  }

  lemma CountNext(log: seq<Attempt>, i: nat, p: Attempt -> bool)
    requires i < |log|
    ensures Count(log[..i + 1], p) == Count(log[..i], p) + if p(log[i]) then 1 else 0
  {
    assert log[..i + 1] == log[..i] + [log[i]];
    CountSnoc(log[..i], log[i], p);
  }

  lemma {:induction false} CountMonotone(log: seq<Attempt>, p: Attempt -> bool, q: Attempt -> bool)
    requires forall a :: a in log && p(a) ==> q(a)
    ensures Count(log, p) <= Count(log, q)
    decreases |log|
  {
    if log != [] {
      assert forall a :: a in log[..|log| - 1] ==> a in log;
      assert log[|log| - 1] in log;
      CountMonotone(log[..|log| - 1], p, q);
    }
  }

  /** MAX(ts) over the user's successes: `ts` is later than every one of them. */
  predicate SinceSuccess(log: seq<Attempt>, user: string, ts: Time) {
    forall a :: a in log && a.user == user && a.success ==> a.ts < ts
  }

  // --- the check --------------------------------------------------------------------

  /** `now() - window < ts`, for each cap's own rows. */
  function GlobalRow(now: Time, window: Time): Attempt -> bool {
    (a: Attempt) => a.ts > now - window
  }

  function IpRow(ip: Option<string>, now: Time, window: Time): Attempt -> bool {
    (a: Attempt) => ip.Some? && a.ip == ip && !a.success && a.ts > now - window
  }

  function UserRow(log: seq<Attempt>, user: string, now: Time, window: Time): Attempt -> bool {
    (a: Attempt) => a.user == user && !a.success && a.ts > now - window && SinceSuccess(log, user, a.ts)
  }

  /** The statement's own WHERE: nothing older than the widest window. */
  function Widest(cfg: Config): Time {
    Max(cfg.globalWindow, Max(cfg.ipWindow, cfg.userWindow))
  }

  function Recent(log: seq<Attempt>, now: Time, cfg: Config): seq<Attempt>
    decreases |log|
  {
    if log == [] then []
    else
      Recent(log[..|log| - 1], now, cfg)
      + if log[|log| - 1].ts > now - Widest(cfg) then [log[|log| - 1]] else []
  }

  /** `check_login_rate_limits`: the broadest cap that refuses, or None. */
  function Check(table: seq<Attempt>, user: string, ip: Option<string>, now: Time, cfg: Config): Option<Cap> {
    var rows := Recent(table, now, cfg);
    if Count(rows, GlobalRow(now, cfg.globalWindow)) >= cfg.globalMax then Some(GlobalCap)
    else if ip.Some? && Count(rows, IpRow(ip, now, cfg.ipWindow)) >= cfg.ipMax then Some(IpCap)
    else if Count(rows, UserRow(table, user, now, cfg.userWindow)) >= cfg.userMax then Some(UserCap)
    else None
  }

  lemma {:induction false} RecentKeepsCount(log: seq<Attempt>, now: Time, cfg: Config, p: Attempt -> bool)
    requires forall a :: p(a) ==> a.ts > now - Widest(cfg)
    ensures Count(Recent(log, now, cfg), p) == Count(log, p)
    decreases |log|
  {
    if log != [] {
      var init, last := log[..|log| - 1], log[|log| - 1];
      RecentKeepsCount(init, now, cfg, p);
      if last.ts > now - Widest(cfg) {
        CountSnoc(Recent(init, now, cfg), last, p);
      } else {
        assert Recent(log, now, cfg) == Recent(init, now, cfg);
      }
    }
  }

  /** Passing the check means every cap had room, over the whole table. */
  lemma CheckPasses(table: seq<Attempt>, user: string, ip: Option<string>, now: Time, cfg: Config)
    ensures Check(table, user, ip, now, cfg).None? <==>
              && Count(table, GlobalRow(now, cfg.globalWindow)) < cfg.globalMax
              && (ip.Some? ==> Count(table, IpRow(ip, now, cfg.ipWindow)) < cfg.ipMax)
              && Count(table, UserRow(table, user, now, cfg.userWindow)) < cfg.userMax
  {
    RecentKeepsCount(table, now, cfg, GlobalRow(now, cfg.globalWindow));
    RecentKeepsCount(table, now, cfg, IpRow(ip, now, cfg.ipWindow));
    RecentKeepsCount(table, now, cfg, UserRow(table, user, now, cfg.userWindow));
  }

  /** The rows a decision looks at, by their place in the table. */
  ghost function GlobalRows(table: seq<Attempt>, now: Time, cfg: Config): set<nat> {
    set i: nat | i < |table| && table[i].ts > now - cfg.globalWindow
  }

  /** Failures from the address; a success never counts. */
  ghost function IpRows(table: seq<Attempt>, ip: Option<string>, now: Time, cfg: Config): set<nat> {
    set i: nat | i < |table| && ip.Some? && table[i].ip == ip && !table[i].success && table[i].ts > now - cfg.ipWindow
  }

  /** Failures of the user later than every success of the user's. */
  ghost function UserRows(table: seq<Attempt>, user: string, now: Time, cfg: Config): set<nat> {
    set i: nat | i < |table| && table[i].user == user && !table[i].success && table[i].ts > now - cfg.userWindow
                 && IsAfterSuccesses(table, user, i)
  }

  ghost predicate IsAfterSuccesses(table: seq<Attempt>, user: string, i: nat)
    requires i < |table|
  {
    forall j: nat :: j < |table| && table[j].user == user && table[j].success ==> table[j].ts < table[i].ts
  }

  lemma {:induction false} CountIsSize(log: seq<Attempt>, p: Attempt -> bool, rows: set<nat>)
    requires forall i :: i in rows <==> 0 <= i < |log| && p(log[i])
    ensures Count(log, p) == |rows|
    decreases |log|
  {
    if log == [] {
      assert rows == {};
    } else {
      var n := |log| - 1;
      CountIsSize(log[..n], p, rows - {n});
      assert n in rows ==> rows == (rows - {n}) + {n};
      assert n !in rows ==> rows == rows - {n};
    }
  }

  /** The decision: the broadest cap whose rows have reached it. */
  lemma CheckIsBroadestCap(table: seq<Attempt>, user: string, ip: Option<string>, now: Time, cfg: Config)
    ensures Check(table, user, ip, now, cfg)
            == if |GlobalRows(table, now, cfg)| >= cfg.globalMax then Some(GlobalCap)
               else if ip.Some? && |IpRows(table, ip, now, cfg)| >= cfg.ipMax then Some(IpCap)
               else if |UserRows(table, user, now, cfg)| >= cfg.userMax then Some(UserCap)
               else None
  {
    RecentKeepsCount(table, now, cfg, GlobalRow(now, cfg.globalWindow));
    RecentKeepsCount(table, now, cfg, IpRow(ip, now, cfg.ipWindow));
    RecentKeepsCount(table, now, cfg, UserRow(table, user, now, cfg.userWindow));
    CountIsSize(table, GlobalRow(now, cfg.globalWindow), GlobalRows(table, now, cfg));
    CountIsSize(table, IpRow(ip, now, cfg.ipWindow), IpRows(table, ip, now, cfg));
    forall i: nat | i < |table| ensures IsAfterSuccesses(table, user, i) <==> SinceSuccess(table, user, table[i].ts) {
    }
    CountIsSize(table, UserRow(table, user, now, cfg.userWindow), UserRows(table, user, now, cfg));
  }

  /** A success gives the user a whole cap again, whatever failed before it. */
  lemma SuccessRestartsUser(table: seq<Attempt>, a: Attempt, ip: Option<string>, now: Time, cfg: Config)
    requires a.success && (forall b :: b in table ==> b.ts <= a.ts) && cfg.userMax >= 1
    ensures Check(table + [a], a.user, ip, now, cfg) != Some(UserCap)
  {
    var all := table + [a];
    CheckIsBroadestCap(all, a.user, ip, now, cfg);
    forall i: nat | i < |all| ensures i !in UserRows(all, a.user, now, cfg) {
      assert all[|table|] == a && all[i].ts <= a.ts;
    }
    assert UserRows(all, a.user, now, cfg) == {};
  }

  // --- many workers --------------------------------------------------------------------

  type WorkerId = nat

  /** A worker between its check and its record. `now` is its transaction's. */
  datatype Worker = Idle | Checked(user: string, ip: Option<string>, now: Time)

  /** `log` is every attempt ever recorded, in commit order; `table` what sweeps
      have left of it; `cut` the latest cut-off of any of them. */
  datatype State = State(
    log: seq<Attempt>, table: seq<Attempt>, cut: Option<Time>, workers: map<WorkerId, Worker>)

  datatype Event =
    | Begin(w: WorkerId, user: string, ip: Option<string>, now: Time)
    | Record(w: WorkerId, success: bool, ts: Time)
    | Abandon(w: WorkerId)
    | Sweep(w: WorkerId, now: Time, retention: Time)

  /** The check reads the committed rows. The audit row is stamped with the time
      of the same transaction, or later. */
  ghost predicate Enabled(s: State, e: Event) {
    && e.w in s.workers
    && match e
       case Begin(w, _, _, _) => s.workers[w].Idle?
       case Record(w, _, ts) => s.workers[w].Checked? && s.workers[w].now <= ts
       case Abandon(w) => s.workers[w].Checked?
       case Sweep(w, _, _) => s.workers[w].Idle?
  }

  function Apply(s: State, e: Event, cfg: Config): State
    requires e.w in s.workers && (e.Record? ==> s.workers[e.w].Checked?)
  {
    match e
    case Begin(w, user, ip, now) =>
      if Check(s.table, user, ip, now, cfg).None? then s.(workers := s.workers[w := Checked(user, ip, now)])
      else s
    case Record(w, success, ts) =>
      var a := Attempt(s.workers[w].user, s.workers[w].ip, success, ts);
      s.(log := s.log + [a], table := s.table + [a], workers := s.workers[w := Idle])
    case Abandon(w) => s.(workers := s.workers[w := Idle])
    case Sweep(_, now, retention) =>
      s.(table := Swept(s.table, now, retention), cut := Some(LaterCut(s.cut, now - retention)))
  }

  function LaterCut(cut: Option<Time>, at: Time): Time {
    if cut.Some? then Max(cut.value, at) else at
  }

  /** No sweep has cut into what a check looks at. */
  predicate SweptInTime(s: State, e: Event, cfg: Config) {
    e.Begin? && s.cut.Some? ==> cfg.globalMax == 0 || s.cut.value <= e.now - Reach(e.ip, cfg) + 1
  }

  ghost predicate InTimeRun(s: State, es: seq<Event>, cfg: Config)
    requires Legal(s, es, cfg)
    decreases |es|
  {
    es != [] ==> SweptInTime(s, es[0], cfg) && InTimeRun(Apply(s, es[0], cfg), es[1..], cfg)
  }

  // --- what sweeps leave ------------------------------------------------------------------

  /** `table` is `log` without some rows older than `cut`. */
  ghost predicate Remains(table: seq<Attempt>, log: seq<Attempt>, cut: Option<Time>)
    decreases |log|
  {
    if log == [] then table == []
    else
      var n := |log| - 1;
      || (table != [] && table[|table| - 1] == log[n] && Remains(table[..|table| - 1], log[..n], cut))
      || (cut.Some? && log[n].ts < cut.value && Remains(table, log[..n], cut))
  }

  lemma RemainsSnoc(table: seq<Attempt>, log: seq<Attempt>, cut: Option<Time>, a: Attempt)
    requires Remains(table, log, cut)
    ensures Remains(table + [a], log + [a], cut)
  {
    assert (table + [a])[..|table|] == table && (log + [a])[..|log|] == log;
  }

  lemma {:induction false} RemainsSwept(table: seq<Attempt>, log: seq<Attempt>, cut: Option<Time>,
                                        now: Time, retention: Time)
    requires Remains(table, log, cut)
    ensures Remains(Swept(table, now, retention), log, Some(LaterCut(cut, now - retention)))
    decreases |log|
  {
    if log != [] {
      var n := |log| - 1;
      if table != [] && table[|table| - 1] == log[n] && Remains(table[..|table| - 1], log[..n], cut) {
        var init, last := table[..|table| - 1], log[n];
        RemainsSwept(init, log[..n], cut, now, retention);
        if last.ts >= now - retention {
          assert Swept(table, now, retention) == Swept(init, now, retention) + [last];
          assert Swept(table, now, retention)[..|Swept(init, now, retention)|] == Swept(init, now, retention);
        } else {
          assert Swept(table, now, retention) == Swept(init, now, retention);
        }
      } else {
        RemainsSwept(table, log[..n], cut, now, retention);
      }
    }
  }

  lemma {:induction false} RemainsElements(table: seq<Attempt>, log: seq<Attempt>, cut: Option<Time>)
    requires Remains(table, log, cut)
    ensures forall a :: a in table ==> a in log
    ensures forall a :: a in log && !(cut.Some? && a.ts < cut.value) ==> a in table
    decreases |log|
  {
    if log != [] {
      var n := |log| - 1;
      assert log == log[..n] + [log[n]];
      if table != [] && table[|table| - 1] == log[n] && Remains(table[..|table| - 1], log[..n], cut) {
        assert table == table[..|table| - 1] + [log[n]];
        RemainsElements(table[..|table| - 1], log[..n], cut);
      } else {
        RemainsElements(table, log[..n], cut);
      }
    }
  }

  lemma {:induction false} RemainsCounts(table: seq<Attempt>, log: seq<Attempt>, cut: Option<Time>,
                                         p: Attempt -> bool)
    requires Remains(table, log, cut) && forall a :: p(a) && cut.Some? ==> a.ts >= cut.value
    ensures Count(table, p) == Count(log, p)
    decreases |log|
  {
    if log != [] {
      var n := |log| - 1;
      if table != [] && table[|table| - 1] == log[n] && Remains(table[..|table| - 1], log[..n], cut) {
        RemainsCounts(table[..|table| - 1], log[..n], cut, p);
      } else {
        RemainsCounts(table, log[..n], cut, p);
      }
    }
  }

  /** A check that passes on what is left has seen all there is to count. */
  lemma CheckSeesTheLog(s: State, user: string, ip: Option<string>, now: Time, cfg: Config)
    requires Remains(s.table, s.log, s.cut) && Check(s.table, user, ip, now, cfg).None?
    requires s.cut.Some? ==> cfg.globalMax == 0 || s.cut.value <= now - Reach(ip, cfg) + 1
    ensures Count(s.log, GlobalRow(now, cfg.globalWindow)) < cfg.globalMax
    ensures ip.Some? ==> Count(s.log, IpRow(ip, now, cfg.ipWindow)) < cfg.ipMax
    ensures Count(s.log, UserRow(s.log, user, now, cfg.userWindow)) < cfg.userMax
  {
    CheckPasses(s.table, user, ip, now, cfg);
    RemainsCounts(s.table, s.log, s.cut, GlobalRow(now, cfg.globalWindow));
    if ip.Some? {
      RemainsCounts(s.table, s.log, s.cut, IpRow(ip, now, cfg.ipWindow));
    }
    var left, all := UserRow(s.table, user, now, cfg.userWindow), UserRow(s.log, user, now, cfg.userWindow);
    RemainsCounts(s.table, s.log, s.cut, left);
    RemainsElements(s.table, s.log, s.cut);
    CountSame(s.log, left, all);
  }

  ghost predicate Legal(s: State, es: seq<Event>, cfg: Config)
    decreases |es|
  {
    es == [] || (Enabled(s, es[0]) && Legal(Apply(s, es[0], cfg), es[1..], cfg))
  }

  ghost function Run(s: State, es: seq<Event>, cfg: Config): State
    requires Legal(s, es, cfg)
    decreases |es|
  {
    if es == [] then s else Run(Apply(s, es[0], cfg), es[1..], cfg)
  }

  ghost predicate Initial(s: State) {
    && s.log == [] && s.table == [] && s.cut.None? && s.workers != map[]
    && forall w :: w in s.workers ==> s.workers[w].Idle?
  }

  // --- how far a cap can be overshot --------------------------------------------------------

  /** Rows counted against a cap in the window ending at `t`. */
  function GlobalIn(t: Time, window: Time): Attempt -> bool {
    (a: Attempt) => t - window < a.ts <= t
  }

  function IpIn(ip: string, t: Time, window: Time): Attempt -> bool {
    (a: Attempt) => a.ip == Some(ip) && !a.success && t - window < a.ts <= t
  }

  function UserIn(log: seq<Attempt>, user: string, t: Time, window: Time): Attempt -> bool {
    (a: Attempt) => a.user == user && !a.success && t - window < a.ts <= t && SinceSuccess(log, user, a.ts)
  }

  /** Workers that may still record an attempt inside a window ending at `t`. */
  function InFlight(s: State, t: Time): set<WorkerId> {
    set w | w in s.workers && s.workers[w].Checked? && s.workers[w].now <= t
  }

  function IpInFlight(s: State, ip: string, t: Time): set<WorkerId> {
    set w | w in InFlight(s, t) && s.workers[w].ip == Some(ip)
  }

  function UserInFlight(s: State, user: string, t: Time): set<WorkerId> {
    set w | w in InFlight(s, t) && s.workers[w].user == user
  }

  /** The attempts a window may still come to hold: recorded ones and those in flight. */
  ghost predicate GlobalBounded(s: State, t: Time, cfg: Config) {
    Count(s.log, GlobalIn(t, cfg.globalWindow)) + |InFlight(s, t)| <= cfg.globalMax + |s.workers| - 1
  }

  ghost predicate IpBounded(s: State, ip: string, t: Time, cfg: Config) {
    Count(s.log, IpIn(ip, t, cfg.ipWindow)) + |IpInFlight(s, ip, t)| <= cfg.ipMax + |s.workers| - 1
  }

  ghost predicate UserBounded(s: State, user: string, t: Time, cfg: Config) {
    Count(s.log, UserIn(s.log, user, t, cfg.userWindow)) + |UserInFlight(s, user, t)|
    <= cfg.userMax + |s.workers| - 1
  }

  ghost predicate Bounded(s: State, cfg: Config) {
    && s.workers != map[]
    && (forall t :: GlobalBounded(s, t, cfg))
    && (forall ip, t :: IpBounded(s, ip, t, cfg))
    && (forall user, t :: UserBounded(s, user, t, cfg))
  }

  lemma WorkersSize(s: State, ws: set<WorkerId>)
    requires ws <= s.workers.Keys
    ensures |ws| <= |s.workers|
  {
    SubsetSize(ws, s.workers.Keys);
  }

  /** A worker that got through the check found room, and there are only so many
      workers; before its own clock it changes nothing. */
  lemma BeginGlobal(s: State, w: WorkerId, user: string, ip: Option<string>, now: Time, cfg: Config, t: Time)
    requires Enabled(s, Begin(w, user, ip, now)) && GlobalBounded(s, t, cfg)
    requires Count(s.log, GlobalRow(now, cfg.globalWindow)) < cfg.globalMax
    ensures GlobalBounded(Apply(s, Begin(w, user, ip, now), cfg), t, cfg)
  {
    var s' := Apply(s, Begin(w, user, ip, now), cfg);
    if t < now {
      assert s'.workers.Keys == s.workers.Keys && |s'.workers| == |s'.workers.Keys|;
      assert InFlight(s', t) == InFlight(s, t);
    } else {
      CountMonotone(s.log, GlobalIn(t, cfg.globalWindow), GlobalRow(now, cfg.globalWindow));
      WorkersSize(s', InFlight(s', t));
    }
  }

  lemma BeginIp(s: State, w: WorkerId, user: string, ip: Option<string>, now: Time, cfg: Config,
                i: string, t: Time)
    requires Enabled(s, Begin(w, user, ip, now)) && IpBounded(s, i, t, cfg)
    requires ip.Some? ==> Count(s.log, IpRow(ip, now, cfg.ipWindow)) < cfg.ipMax
    ensures IpBounded(Apply(s, Begin(w, user, ip, now), cfg), i, t, cfg)
  {
    var s' := Apply(s, Begin(w, user, ip, now), cfg);
    if t < now || ip != Some(i) {
      assert s'.workers.Keys == s.workers.Keys && |s'.workers| == |s'.workers.Keys|;
      assert IpInFlight(s', i, t) == IpInFlight(s, i, t);
    } else {
      CountMonotone(s.log, IpIn(i, t, cfg.ipWindow), IpRow(ip, now, cfg.ipWindow));
      WorkersSize(s', IpInFlight(s', i, t));
    }
  }

  lemma BeginUser(s: State, w: WorkerId, user: string, ip: Option<string>, now: Time, cfg: Config,
                  u: string, t: Time)
    requires Enabled(s, Begin(w, user, ip, now)) && UserBounded(s, u, t, cfg)
    requires Count(s.log, UserRow(s.log, user, now, cfg.userWindow)) < cfg.userMax
    ensures UserBounded(Apply(s, Begin(w, user, ip, now), cfg), u, t, cfg)
  {
    var s' := Apply(s, Begin(w, user, ip, now), cfg);
    if t < now || u != user {
      assert s'.workers.Keys == s.workers.Keys && |s'.workers| == |s'.workers.Keys|;
      assert UserInFlight(s', u, t) == UserInFlight(s, u, t);
    } else {
      CountMonotone(s.log, UserIn(s.log, u, t, cfg.userWindow), UserRow(s.log, user, now, cfg.userWindow));
      WorkersSize(s', UserInFlight(s', u, t));
    }
  }

  lemma BeginBounded(s: State, w: WorkerId, user: string, ip: Option<string>, now: Time, cfg: Config)
    requires Bounded(s, cfg) && Remains(s.table, s.log, s.cut) && Enabled(s, Begin(w, user, ip, now))
    requires SweptInTime(s, Begin(w, user, ip, now), cfg)
    ensures Bounded(Apply(s, Begin(w, user, ip, now), cfg), cfg)
  {
    var s' := Apply(s, Begin(w, user, ip, now), cfg);
    if s' != s {
      CheckSeesTheLog(s, user, ip, now, cfg);
      forall t ensures GlobalBounded(s', t, cfg) {
        BeginGlobal(s, w, user, ip, now, cfg, t);
      }
      forall i, t ensures IpBounded(s', i, t, cfg) {
        BeginIp(s, w, user, ip, now, cfg, i, t);
      }
      forall u, t ensures UserBounded(s', u, t, cfg) {
        BeginUser(s, w, user, ip, now, cfg, u, t);
      }
    }
  }

  function Recorded(s: State, w: WorkerId, success: bool, ts: Time): (a: Attempt)
    requires w in s.workers && s.workers[w].Checked?
  {
    Attempt(s.workers[w].user, s.workers[w].ip, success, ts)
  }

  /** A worker leaves `before`, and counts for one row if the row is counted. */
  lemma OneLessInFlight(before: set<WorkerId>, after: set<WorkerId>, w: WorkerId, counted: bool)
    requires after == before - {w} && (counted ==> w in before)
    ensures (if counted then 1 else 0) + |after| <= |before|
  {
    SubsetSize(after, before);
    if counted { assert |before| == |after| + 1; }
  }

  /** Recording turns one worker in flight into at most one counted row. */
  lemma RecordGlobal(s: State, w: WorkerId, success: bool, ts: Time, cfg: Config, t: Time)
    requires Enabled(s, Record(w, success, ts)) && GlobalBounded(s, t, cfg)
    ensures GlobalBounded(Apply(s, Record(w, success, ts), cfg), t, cfg)
  {
    var s', a := Apply(s, Record(w, success, ts), cfg), Recorded(s, w, success, ts);
    assert s'.workers.Keys == s.workers.Keys && |s'.workers| == |s'.workers.Keys|;
    CountSnoc(s.log, a, GlobalIn(t, cfg.globalWindow));
    OneLessInFlight(InFlight(s, t), InFlight(s', t), w, GlobalIn(t, cfg.globalWindow)(a));
  }

  lemma RecordIp(s: State, w: WorkerId, success: bool, ts: Time, cfg: Config, ip: string, t: Time)
    requires Enabled(s, Record(w, success, ts)) && IpBounded(s, ip, t, cfg)
    ensures IpBounded(Apply(s, Record(w, success, ts), cfg), ip, t, cfg)
  {
    var s', a := Apply(s, Record(w, success, ts), cfg), Recorded(s, w, success, ts);
    assert s'.workers.Keys == s.workers.Keys && |s'.workers| == |s'.workers.Keys|;
    CountSnoc(s.log, a, IpIn(ip, t, cfg.ipWindow));
    OneLessInFlight(IpInFlight(s, ip, t), IpInFlight(s', ip, t), w, IpIn(ip, t, cfg.ipWindow)(a));
  }

  lemma RecordUser(s: State, w: WorkerId, success: bool, ts: Time, cfg: Config, user: string, t: Time)
    requires Enabled(s, Record(w, success, ts)) && UserBounded(s, user, t, cfg)
    ensures UserBounded(Apply(s, Record(w, success, ts), cfg), user, t, cfg)
  {
    var s', a := Apply(s, Record(w, success, ts), cfg), Recorded(s, w, success, ts);
    assert s'.workers.Keys == s.workers.Keys && |s'.workers| == |s'.workers.Keys|;
    CountSnoc(s.log, a, UserIn(s'.log, user, t, cfg.userWindow));
    MoreSuccessesCountLess(s.log, a, user, t, cfg.userWindow);
    OneLessInFlight(UserInFlight(s, user, t), UserInFlight(s', user, t), w,
                    UserIn(s'.log, user, t, cfg.userWindow)(a));
  }

  /** A success only takes rows out of the user's count. */
  lemma MoreSuccessesCountLess(log: seq<Attempt>, a: Attempt, user: string, t: Time, window: Time)
    ensures Count(log, UserIn(log + [a], user, t, window)) <= Count(log, UserIn(log, user, t, window))
  {
    assert forall x :: x in log ==> x in log + [a];
    CountMonotone(log, UserIn(log + [a], user, t, window), UserIn(log, user, t, window));
  }

  lemma RecordBounded(s: State, w: WorkerId, success: bool, ts: Time, cfg: Config)
    requires Bounded(s, cfg) && Enabled(s, Record(w, success, ts))
    ensures Bounded(Apply(s, Record(w, success, ts), cfg), cfg)
  {
    var s' := Apply(s, Record(w, success, ts), cfg);
    forall t ensures GlobalBounded(s', t, cfg) {
      RecordGlobal(s, w, success, ts, cfg, t);
    }
    forall i, t ensures IpBounded(s', i, t, cfg) {
      RecordIp(s, w, success, ts, cfg, i, t);
    }
    forall u, t ensures UserBounded(s', u, t, cfg) {
      RecordUser(s, w, success, ts, cfg, u, t);
    }
  }

  /** Nothing recorded and no one more in flight. */
  lemma FewerInFlight(s: State, s': State, cfg: Config)
    requires Bounded(s, cfg) && s'.log == s.log && s'.workers.Keys == s.workers.Keys
    requires forall w :: w in s.workers ==> s'.workers[w] == s.workers[w] || s'.workers[w].Idle?
    ensures Bounded(s', cfg)
  {
    assert |s'.workers| == |s'.workers.Keys| && |s.workers| == |s.workers.Keys|;
    forall t ensures GlobalBounded(s', t, cfg) {
      assert GlobalBounded(s, t, cfg);
      SubsetSize(InFlight(s', t), InFlight(s, t));
    }
    forall i, t ensures IpBounded(s', i, t, cfg) {
      assert IpBounded(s, i, t, cfg);
      SubsetSize(IpInFlight(s', i, t), IpInFlight(s, i, t));
    }
    forall u, t ensures UserBounded(s', u, t, cfg) {
      assert UserBounded(s, u, t, cfg);
      SubsetSize(UserInFlight(s', u, t), UserInFlight(s, u, t));
    }
  }

  lemma StepBounded(s: State, e: Event, cfg: Config)
    requires Bounded(s, cfg) && Remains(s.table, s.log, s.cut) && Enabled(s, e) && SweptInTime(s, e, cfg)
    ensures Bounded(Apply(s, e, cfg), cfg)
  {
    match e {
      case Begin(w, user, ip, now) => BeginBounded(s, w, user, ip, now, cfg);
      case Record(w, success, ts) => RecordBounded(s, w, success, ts, cfg);
      case _ => FewerInFlight(s, Apply(s, e, cfg), cfg);
    }
  }

  lemma StepRemains(s: State, e: Event, cfg: Config)
    requires Remains(s.table, s.log, s.cut) && Enabled(s, e)
    ensures var s' := Apply(s, e, cfg); Remains(s'.table, s'.log, s'.cut)
  {
    match e {
      case Record(w, success, ts) => RemainsSnoc(s.table, s.log, s.cut, Recorded(s, w, success, ts));
      case Sweep(_, now, retention) => RemainsSwept(s.table, s.log, s.cut, now, retention);
      case _ =>
    }
  }

  lemma {:induction false} RunBounded(s: State, es: seq<Event>, cfg: Config)
    requires Bounded(s, cfg) && Remains(s.table, s.log, s.cut)
    requires Legal(s, es, cfg) && InTimeRun(s, es, cfg)
    ensures Bounded(Run(s, es, cfg), cfg) && Run(s, es, cfg).workers.Keys == s.workers.Keys
    decreases |es|
  {
    if es != [] {
      StepBounded(s, es[0], cfg);
      StepRemains(s, es[0], cfg);
      assert Apply(s, es[0], cfg).workers.Keys == s.workers.Keys;
      RunBounded(Apply(s, es[0], cfg), es[1..], cfg);
    }
  }

  /** With W workers, whatever their timing, and sweeps among them that cut into no
      check's reach, no window of any cap ever holds more than the cap and W - 1
      attempts; a success restarts the user's count. */
  lemma OvershootIsBounded(s: State, es: seq<Event>, cfg: Config, t: Time, ip: string, user: string)
    requires Initial(s) && Legal(s, es, cfg) && InTimeRun(s, es, cfg)
    ensures var log := Run(s, es, cfg).log;
            && Count(log, GlobalIn(t, cfg.globalWindow)) <= cfg.globalMax + |s.workers| - 1
            && Count(log, IpIn(ip, t, cfg.ipWindow)) <= cfg.ipMax + |s.workers| - 1
            && Count(log, UserIn(log, user, t, cfg.userWindow)) <= cfg.userMax + |s.workers| - 1
  {
    assert Bounded(s, cfg) by {
      assert forall x :: InFlight(s, x) == {};
    }
    RunBounded(s, es, cfg);
    var last := Run(s, es, cfg);
    assert |last.workers| == |last.workers.Keys| && |s.workers| == |s.workers.Keys|;
    assert GlobalBounded(last, t, cfg) && IpBounded(last, ip, t, cfg) && UserBounded(last, user, t, cfg);
  }

  // --- the retention sweep ---------------------------------------------------------------

  /** DELETE ... WHERE ts < now() - retention */
  function Swept(table: seq<Attempt>, now: Time, retention: Time): seq<Attempt>
    decreases |table|
  {
    if table == [] then []
    else
      Swept(table[..|table| - 1], now, retention) + Kept(table[|table| - 1], now, retention)
  }

  function Kept(a: Attempt, now: Time, retention: Time): seq<Attempt> {
    if a.ts < now - retention then [] else [a]
  }

  lemma KeptCounts(log: seq<Attempt>, a: Attempt, now: Time, retention: Time, p: Attempt -> bool)
    requires p(a) ==> a.ts >= now - retention
    ensures Count(log + Kept(a, now, retention), p) == Count(log, p) + if p(a) then 1 else 0
  {
    CountSnoc(log, a, p);
    assert log + [] == log;
  }

  lemma {:induction false} SweptKeepsCount(table: seq<Attempt>, now: Time, retention: Time,
                                           p: Attempt -> bool)
    requires forall a :: a in table && p(a) ==> a.ts >= now - retention
    ensures Count(Swept(table, now, retention), p) == Count(table, p)
    decreases |table|
  {
    if table != [] {
      var init, last := table[..|table| - 1], table[|table| - 1];
      assert forall a :: a in init ==> a in table;
      assert last in table;
      SweptKeepsCount(init, now, retention, p);
      KeptCounts(Swept(init, now, retention), last, now, retention, p);
    }
  }

  lemma {:induction false} SweptElements(table: seq<Attempt>, now: Time, retention: Time)
    ensures forall a :: a in Swept(table, now, retention) <==> a in table && a.ts >= now - retention
    decreases |table|
  {
    if table != [] {
      SweptElements(table[..|table| - 1], now, retention);
      assert forall a :: a in table <==> a in table[..|table| - 1] || a == table[|table| - 1];
    }
  }

  lemma CountSame(log: seq<Attempt>, p: Attempt -> bool, q: Attempt -> bool)
    requires forall a :: a in log ==> p(a) == q(a)
    ensures Count(log, p) == Count(log, q)
  {
    CountMonotone(log, p, q);
    CountMonotone(log, q, p);
  }

  ghost predicate SameDecision(table: seq<Attempt>, sweptAt: Time, retention: Time,
                               user: string, ip: Option<string>, now: Time, cfg: Config) {
    Check(Swept(table, sweptAt, retention), user, ip, now, cfg) == Check(table, user, ip, now, cfg)
  }

  /** How far back the decision looks. A cap of 0 refuses whatever the rows say,
      so neither its own window nor those behind it matter. */
  function Reach(ip: Option<string>, cfg: Config): Time {
    var ipCounts, ipRefuses := ip.Some? && cfg.ipMax >= 1, ip.Some? && cfg.ipMax == 0;
    var reach := if ipCounts then Max(cfg.globalWindow, cfg.ipWindow) else cfg.globalWindow;
    if cfg.userMax >= 1 && !ipRefuses then Max(reach, cfg.userWindow) else reach
  }

  /** The sweep's cut-off is not inside that reach. */
  predicate SweepSafe(sweptAt: Time, retention: Time, ip: Option<string>, now: Time, cfg: Config) {
    cfg.globalMax == 0 || sweptAt - retention <= now - Reach(ip, cfg) + 1
  }

  /** The decision, given the three counts. */
  function Decide(globalCount: nat, ipCount: nat, userCount: nat, ip: Option<string>, cfg: Config): Option<Cap> {
    if globalCount >= cfg.globalMax then Some(GlobalCap)
    else if ip.Some? && ipCount >= cfg.ipMax then Some(IpCap)
    else if userCount >= cfg.userMax then Some(UserCap)
    else None
  }

  lemma CheckDecides(table: seq<Attempt>, user: string, ip: Option<string>, now: Time, cfg: Config)
    ensures Check(table, user, ip, now, cfg)
            == Decide(Count(table, GlobalRow(now, cfg.globalWindow)), Count(table, IpRow(ip, now, cfg.ipWindow)),
                      Count(table, UserRow(table, user, now, cfg.userWindow)), ip, cfg)
  {
    RecentKeepsCount(table, now, cfg, GlobalRow(now, cfg.globalWindow));
    RecentKeepsCount(table, now, cfg, IpRow(ip, now, cfg.ipWindow));
    RecentKeepsCount(table, now, cfg, UserRow(table, user, now, cfg.userWindow));
  }

  /** A sweep that deletes nothing a window still counts decides nothing. */
  lemma SweepKeepsDecision(table: seq<Attempt>, sweptAt: Time, retention: Time,
                           user: string, ip: Option<string>, now: Time, cfg: Config)
    requires SweepSafe(sweptAt, retention, ip, now, cfg)
    ensures SameDecision(table, sweptAt, retention, user, ip, now, cfg)
  {
    var left := Swept(table, sweptAt, retention);
    CheckDecides(table, user, ip, now, cfg);
    CheckDecides(left, user, ip, now, cfg);
    if cfg.globalMax > 0 {
      SweptKeepsCount(table, sweptAt, retention, GlobalRow(now, cfg.globalWindow));
      if ip.Some? && cfg.ipMax >= 1 {
        SweptKeepsCount(table, sweptAt, retention, IpRow(ip, now, cfg.ipWindow));
      }
      if cfg.userMax >= 1 && (ip.Some? ==> cfg.ipMax >= 1) {
        SweptKeepsUserCount(table, sweptAt, retention, user, now, cfg.userWindow);
      }
    }
  }

  /** A success old enough to be swept is too old to restart a count in the window. */
  lemma SweptKeepsUserCount(table: seq<Attempt>, sweptAt: Time, retention: Time,
                            user: string, now: Time, window: Time)
    requires sweptAt - retention <= now - window + 1
    ensures var left := Swept(table, sweptAt, retention);
            Count(left, UserRow(left, user, now, window)) == Count(table, UserRow(table, user, now, window))
  {
    var left := Swept(table, sweptAt, retention);
    SweptElements(table, sweptAt, retention);
    SweptKeepsCount(table, sweptAt, retention, UserRow(left, user, now, window));
    CountSame(table, UserRow(left, user, now, window), UserRow(table, user, now, window));
  }

  /** Exactly then, whichever window is the widest. A check's clock is its
      transaction's start, so a sweep begun later may have committed first: a
      retention as wide as the widest window is not enough by itself, it must
      also cover that lead. */
  lemma SweepExact(sweptAt: Time, retention: Time, user: string, ip: Option<string>, now: Time, cfg: Config)
    ensures (forall table :: SameDecision(table, sweptAt, retention, user, ip, now, cfg))
            <==> SweepSafe(sweptAt, retention, ip, now, cfg)
  {
    if SweepSafe(sweptAt, retention, ip, now, cfg) {
      forall table ensures SameDecision(table, sweptAt, retention, user, ip, now, cfg) {
        SweepKeepsDecision(table, sweptAt, retention, user, ip, now, cfg);
      }
    } else {
      var reach := Reach(ip, cfg);
      var ts := now - reach + 1;
      // rows at the very edge of the window that reaches back farthest
      var a, n := Attempt(user, ip, true, ts), cfg.globalMax;
      if cfg.globalWindow < reach {
        if ip.Some? && cfg.ipMax >= 1 && cfg.ipWindow == reach {
          a, n := Attempt(user + "'", ip, false, ts), cfg.ipMax;
        } else {
          a, n := Attempt(user, None, false, ts), cfg.userMax;
        }
      }
      SweptRowsDecide(a, n, sweptAt, retention, user, ip, now, cfg);
    }
  }

  lemma {:induction false} AllSwept(a: Attempt, n: nat, sweptAt: Time, retention: Time)
    requires a.ts < sweptAt - retention
    ensures Swept(Repeat(a, n), sweptAt, retention) == []
  {
    if n > 0 {
      AllSwept(a, n - 1, sweptAt, retention);
      var table := Repeat(a, n);
      assert table[..|table| - 1] == Repeat(a, n - 1) && table[|table| - 1] == a;
      assert Kept(a, sweptAt, retention) == [];
    }
  }

  /** A table of `n` equal rows that a sweep empties. */
  lemma SweptRowsDecide(a: Attempt, n: nat, sweptAt: Time, retention: Time, user: string,
                        ip: Option<string>, now: Time, cfg: Config)
    requires cfg.globalMax >= 1 && a.ts < sweptAt - retention
    requires var counted := (p: Attempt -> bool) => if p(a) then n else 0;
             var g, i := counted(GlobalRow(now, cfg.globalWindow)), counted(IpRow(ip, now, cfg.ipWindow));
             var u := counted(UserRow(Repeat(a, n), user, now, cfg.userWindow));
             Decide(g, i, u, ip, cfg) != Decide(0, 0, 0, ip, cfg)
    ensures !SameDecision(Repeat(a, n), sweptAt, retention, user, ip, now, cfg)
  {
    var table := Repeat(a, n);
    AllSwept(a, n, sweptAt, retention);
    CheckDecides(table, user, ip, now, cfg);
    CheckDecides([], user, ip, now, cfg);
    RepeatCounts(a, n, GlobalRow(now, cfg.globalWindow));
    RepeatCounts(a, n, IpRow(ip, now, cfg.ipWindow));
    RepeatCounts(a, n, UserRow(table, user, now, cfg.userWindow));
  }

  function Repeat(a: Attempt, n: nat): (r: seq<Attempt>)
    ensures forall x :: x in r ==> x == a
  {
    if n == 0 then [] else Repeat(a, n - 1) + [a]
  }

  lemma {:induction false} RepeatCounts(a: Attempt, n: nat, p: Attempt -> bool)
    ensures Count(Repeat(a, n), p) == if p(a) then n else 0
  {
    if n > 0 {
      RepeatCounts(a, n - 1, p);
      CountSnoc(Repeat(a, n - 1), a, p);
    }
  }

  // --- the code ------------------------------------------------------------------------------

  datatype Outcome = RateLimited(cap: Cap) | AuthenticationFailed | TokenIssued

  datatype Housekeeping = Housekeeping(interval: Time, retention: Time, lockFree: bool)

  class LoginLimiter {
    var table: seq<Attempt>       // api_login_attempts
    var lastSweepAt: Time         // the process's own monotonic clock

    /** All three counts in one scan of the recent rows. */
    method CheckLoginRateLimits(user: string, ip: Option<string>, now: Time, cfg: Config)
      returns (refused: Option<Cap>)
      ensures refused == Check(table, user, ip, now, cfg)
    {
      var rows := Recent(table, now, cfg);
      var globalAttempts, ipFailures, userFailures := 0, 0, 0;
      for i := 0 to |rows|
        invariant globalAttempts == Count(rows[..i], GlobalRow(now, cfg.globalWindow))
        invariant ipFailures == Count(rows[..i], IpRow(ip, now, cfg.ipWindow))
        invariant userFailures == Count(rows[..i], UserRow(table, user, now, cfg.userWindow))
      {
        var a := rows[i];
        CountNext(rows, i, GlobalRow(now, cfg.globalWindow));
        CountNext(rows, i, IpRow(ip, now, cfg.ipWindow));
        CountNext(rows, i, UserRow(table, user, now, cfg.userWindow));
        if a.ts > now - cfg.globalWindow {
          globalAttempts := globalAttempts + 1;
        }
        if !a.success {
          if ip.Some? && a.ip == ip && a.ts > now - cfg.ipWindow {
            ipFailures := ipFailures + 1;
          }
          if a.user == user && a.ts > now - cfg.userWindow && SinceSuccess(table, user, a.ts) {
            userFailures := userFailures + 1;
          }
        }
      }
      assert rows[..|rows|] == rows;
      if globalAttempts >= cfg.globalMax {
        return Some(GlobalCap);
      } else if ip.Some? && ipFailures >= cfg.ipMax {
        return Some(IpCap);
      } else if userFailures >= cfg.userMax {
        return Some(UserCap);
      } else {
        return None;
      }
    }

    method MaybeSweep(clock: Time, now: Time, h: Housekeeping)
      modifies this
      ensures clock - old(lastSweepAt) < h.interval ==> table == old(table) && lastSweepAt == old(lastSweepAt)
      ensures clock - old(lastSweepAt) >= h.interval ==>
                && lastSweepAt == clock
                && table == if h.lockFree then Swept(old(table), now, h.retention) else old(table)
    {
      if clock - lastSweepAt < h.interval {
        return;
      }
      lastSweepAt := clock;
      if h.lockFree {
        table := Swept(table, now, h.retention);
      }
    }

    /** A refused login is not recorded; any other leaves exactly one row, with
        its outcome, committed before the sweep's own transaction at `sweptAt`. */
    method Login(user: string, ip: Option<string>, passwordOk: bool, now: Time, sweptAt: Time,
                 clock: Time, cfg: Config, h: Housekeeping)
      returns (outcome: Outcome)
      modifies this
      ensures match Check(old(table), user, ip, now, cfg)
              case Some(cap) =>
                outcome == RateLimited(cap) && table == old(table) && lastSweepAt == old(lastSweepAt)
              case None =>
                && outcome == (if passwordOk then TokenIssued else AuthenticationFailed)
                && var recorded := old(table) + [Attempt(user, ip, passwordOk, now)];
                   table == if clock - old(lastSweepAt) >= h.interval && h.lockFree
                            then Swept(recorded, sweptAt, h.retention) else recorded
    {
      var refused := CheckLoginRateLimits(user, ip, now, cfg);
      if refused.Some? {
        return RateLimited(refused.value);
      }
      table := table + [Attempt(user, ip, passwordOk, now)];
      MaybeSweep(clock, sweptAt, h);
      return if passwordOk then TokenIssued else AuthenticationFailed;
    }
  }
}
