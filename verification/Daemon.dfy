/** The daemon's thread registry: reconciling it with the accounts, and winding
    it down against one deadline. */
module Daemon {
  import opened Prelude

  type AccountId = nat
  type BundleId = nat
  type Time = int         // accounts.updated_at
  type Fingerprints = map<AccountId, Time>

  // --- the plan ---------------------------------------------------------------------

  datatype ReconcilePlan = ReconcilePlan(
    toSpawn: seq<AccountId>, toTeardown: seq<AccountId>, toRespawn: seq<AccountId>)
  {
    /** Teardowns in it, for good or to start an account anew. */
    function Joining(): nat {
      |toTeardown| + |toRespawn|
    }
  }

  predicate IsEmpty(plan: ReconcilePlan) {
    plan.toSpawn == [] && plan.toTeardown == [] && plan.toRespawn == []
  }

  function Changed(running: Fingerprints, desired: Fingerprints): set<AccountId> {
    set a | a in running && a in desired && running[a] != desired[a]
  }

  function PlanReconcile(running: Fingerprints, desired: Fingerprints): (plan: ReconcilePlan)
    ensures Ascending(plan.toSpawn) && Ascending(plan.toTeardown) && Ascending(plan.toRespawn)
    ensures forall a :: a in plan.toSpawn <==> a in desired && a !in running
    ensures forall a :: a in plan.toTeardown <==> a in running && a !in desired
    ensures forall a :: a in plan.toRespawn <==> a in running && a in desired && running[a] != desired[a]
  {
    ReconcilePlan(
      Sorted(desired.Keys - running.Keys), Sorted(running.Keys - desired.Keys),
      Sorted(Changed(running, desired)))
  }

  lemma RetiredWereRunning(running: Fingerprints, desired: Fingerprints)
    ensures PlanReconcile(running, desired).Joining() <= |running|
  {
    var gone, renewed := running.Keys - desired.Keys, Changed(running, desired);
    SubsetSize(gone + renewed, running.Keys);
    assert |running| == |running.Keys| && gone !! renewed;
  }

  lemma NothingToDo(running: Fingerprints, desired: Fingerprints)
    ensures IsEmpty(PlanReconcile(running, desired)) <==> running == desired
  {
    var plan := PlanReconcile(running, desired);
    if IsEmpty(plan) {
      forall a ensures a in running <==> a in desired {
        assert a !in plan.toSpawn && a !in plan.toTeardown;
      }
      forall a | a in running ensures running[a] == desired[a] {
        assert a !in plan.toRespawn;
      }
    } else {
      assert plan.toSpawn != [] ==> plan.toSpawn[0] in plan.toSpawn;
      assert plan.toTeardown != [] ==> plan.toTeardown[0] in plan.toTeardown;
      assert plan.toRespawn != [] ==> plan.toRespawn[0] in plan.toRespawn;
    }
  }

  /** What runs once some accounts were taken down or brought up to date: these
      `accounts`, the `updated` ones as desired and the others as they were. */
  ghost predicate RunsAs(now: Fingerprints, accounts: set<AccountId>, was: Fingerprints,
                         desired: Fingerprints, updated: set<AccountId>) {
    && now.Keys == accounts && updated <= desired.Keys
    && forall a :: a in accounts ==>
         if a in updated then now[a] == desired[a] else a in was && now[a] == was[a]
  }

  ghost predicate IsPlan(plan: ReconcilePlan, running: Fingerprints, desired: Fingerprints) {
    && Ascending(plan.toSpawn)
    && Elements(plan.toTeardown) == running.Keys - desired.Keys
    && Elements(plan.toRespawn) == Changed(running, desired)
    && Elements(plan.toSpawn) == desired.Keys - running.Keys
  }

  /** Every account a plan works on. */
  ghost function Accounts(plan: ReconcilePlan): set<AccountId> {
    Elements(plan.toTeardown) + Elements(plan.toRespawn) + Elements(plan.toSpawn)
  }

  lemma PlanTouches(plan: ReconcilePlan, running: Fingerprints, desired: Fingerprints)
    requires IsPlan(plan, running, desired)
    ensures Accounts(plan) == Differing(running, desired)
  {
  }

  method MakePlan(running: Fingerprints, desired: Fingerprints) returns (plan: ReconcilePlan)
    ensures IsPlan(plan, running, desired)
    ensures plan.Joining() <= |running|
    ensures IsEmpty(plan) <==> running == desired
  {
    plan := PlanReconcile(running, desired);
    NothingToDo(running, desired);
    SortedElements(running.Keys - desired.Keys);
    SortedElements(Changed(running, desired));
    SortedElements(desired.Keys - running.Keys);
    RetiredWereRunning(running, desired);
  }

  /** Teardown, respawn and spawn, in that order, arrive at what is desired. */
  lemma PlanConverges(was: Fingerprints, r1: Fingerprints, r2: Fingerprints, r3: Fingerprints,
                      desired: Fingerprints)
    requires RunsAs(r1, was.Keys - (was.Keys - desired.Keys), was, map[], {})
    requires RunsAs(r2, r1.Keys + Changed(was, desired), r1, desired, Changed(was, desired))
    requires RunsAs(r3, r2.Keys + (desired.Keys - was.Keys), r2, desired, desired.Keys - was.Keys)
    ensures r3 == desired
  {
  }

  /** What a plan starts: changed accounts anew, and those not running. */
  function ToStart(running: Fingerprints, desired: Fingerprints): set<AccountId> {
    Changed(running, desired) + (desired.Keys - running.Keys)
  }

  /** Accounts that do not run as desired. */
  function Differing(running: Fingerprints, desired: Fingerprints): set<AccountId> {
    (running.Keys - desired.Keys) + Changed(running, desired) + (desired.Keys - running.Keys)
  }

  /** A start raised: one of a desired account, and an idle thread is stranded
      exactly if that account's had started. */
  ghost predicate StartFailed(was: set<BundleId>, now: set<BundleId>, desired: Fingerprints,
                              starts: AccountId -> Started) {
    && was <= now
    && exists a :: a in desired && !starts(a).Both? && (now != was <==> starts(a).IdleOnly?)
  }

  lemma PutBack(running: Fingerprints, a: AccountId, updatedAt: Time)
    ensures (running - {a})[a := updatedAt] == running[a := updatedAt]
  {
  }

  // --- the clock and the threads ------------------------------------------------------

  /** When a worker ends after being told to stop; None: not on its own. */
  type Worker = Option<real>

  function RemainingSeconds(deadline: real, now: real): real {
    if deadline - now > 0.0 then deadline - now else 0.0
  }

  const SUPERVISOR_KILL_MARGIN_S := 5.0

  function SupervisorKillAfter(childGrace: real): real {
    childGrace + SUPERVISOR_KILL_MARGIN_S
  }

  /** A join returns when the worker has ended or the timeout is over. */
  function JoinReturns(now: real, worker: Worker, timeout: real): (later: real)
    requires timeout >= 0.0
    ensures now <= later <= now + timeout
  {
    if worker.None? || worker.value > now + timeout then now + timeout
    else if worker.value > now then worker.value
    else now
  }

  /** Whether the worker has ended by `t`. */
  predicate EndedBy(worker: Worker, t: real) {
    worker.Some? && worker.value <= t
  }

  /** The idle and the poll thread of an account. */
  type Pair = (Worker, Worker)

  /** A teardown joins one after the other, each with the whole grace. */
  function TeardownEnds(start: real, pair: Pair, grace: real): real
    requires grace >= 0.0
  {
    JoinReturns(JoinReturns(start, pair.0, grace), pair.1, grace)
  }

  /** What the joins of `n` teardowns may take. */
  function Joins(n: nat, grace: real): (r: real)
    requires grace >= 0.0
    ensures r >= 0.0
  {
    if n == 0 then 0.0 else Joins(n - 1, grace) + 2.0 * grace
  }

  lemma {:induction false} JoinsAdd(n: nat, m: nat, grace: real)
    requires grace >= 0.0
    ensures Joins(n + m, grace) == Joins(n, grace) + Joins(m, grace)
    decreases m
  {
    if m > 0 { JoinsAdd(n, m - 1, grace); }
  }

  ghost predicate SpentOn(n: nat, start: real, end: real, grace: real)
    requires grace >= 0.0
  {
    start <= end <= start + Joins(n, grace)
  }

  lemma SpentInTurn(n: nat, m: nat, a: real, b: real, c: real, grace: real)
    requires grace >= 0.0 && SpentOn(n, a, b, grace) && SpentOn(m, b, c, grace)
    ensures SpentOn(n + m, a, c, grace)
  {
    JoinsAdd(n, m, grace);
  }

  // --- the registry ----------------------------------------------------------------------

  /** The threads of one account, spawned together, told to stop by one event. */
  datatype Bundle = Bundle(id: BundleId, updatedAt: Time)

  datatype Command = ReloadNow | DrainStop | RestartAccount(account: AccountId) | Unknown

  /** How far starting an account's two threads gets before one raises. */
  datatype Started = Both | IdleOnly | Neither

  /** Spawning `accounts`: either all their threads start, or one raises, and
      leaves an idle thread behind exactly when that had started. */
  ghost predicate SpawnOutcome(was: set<BundleId>, now: set<BundleId>, raised: bool,
                               accounts: set<AccountId>, starts: AccountId -> Started) {
    && was <= now
    && if raised then exists a :: a in accounts && !starts(a).Both? && (now != was <==> starts(a).IdleOnly?)
       else now == was && forall a :: a in accounts ==> starts(a).Both?
  }

  /** The registry after some accounts were worked on: no other entry is different,
      and theirs are new bundles or the ones they had. */
  ghost predicate OnlyTouched(now: map<AccountId, Bundle>, was: map<AccountId, Bundle>, accounts: set<AccountId>,
                              first: BundleId) {
    && (forall a :: a !in accounts ==> (a in now <==> a in was))
    && (forall a :: a in now ==> (a in was && now[a] == was[a]) || (a in accounts && now[a].id >= first))
  }

  lemma TouchedInTurn(now: map<AccountId, Bundle>, mid: map<AccountId, Bundle>, was: map<AccountId, Bundle>,
                      some: set<AccountId>, others: set<AccountId>, first: BundleId, next: BundleId)
    requires OnlyTouched(mid, was, some, first) && OnlyTouched(now, mid, others, next) && first <= next
    ensures OnlyTouched(now, was, some + others, first)
  {
  }

  lemma MoreTouched(now: map<AccountId, Bundle>, was: map<AccountId, Bundle>, some: set<AccountId>,
                    more: set<AccountId>, first: BundleId)
    requires OnlyTouched(now, was, some, first) && some <= more
    ensures OnlyTouched(now, was, more, first)
  {
  }

  function Prints(threads: map<AccountId, Bundle>): Fingerprints {
    map a | a in threads :: threads[a].updatedAt
  }

  lemma WithoutInTurn(m: map<AccountId, Bundle>, some: set<AccountId>, a: AccountId)
    ensures m - some - {a} == m - (some + {a})
  {
  }

  lemma WithoutRunsAs(now: map<AccountId, Bundle>, was: map<AccountId, Bundle>, accounts: set<AccountId>)
    requires now == was - accounts
    ensures RunsAs(Prints(now), Prints(was).Keys - accounts, Prints(was), map[], {})
  {
  }

  lemma FewerRun(now: map<AccountId, Bundle>, was: map<AccountId, Bundle>, accounts: set<AccountId>)
    requires now == was - accounts
    ensures |Prints(now)| <= |Prints(was)|
  {
    SubsetSize(Prints(now).Keys, Prints(was).Keys);
    assert |Prints(now)| == |Prints(now).Keys| && |Prints(was)| == |Prints(was).Keys|;
  }

  lemma WithoutTouched(now: map<AccountId, Bundle>, was: map<AccountId, Bundle>, accounts: set<AccountId>,
                       first: BundleId)
    requires now == was - accounts
    ensures OnlyTouched(now, was, accounts, first)
  {
  }

  /** What a tick makes of the registry. One that is told to stop, or cannot read
      the accounts, only takes down what the commands restart. In any other what is
      restarted has a new bundle if it runs, and what runs as desired is left alone. */
  ghost predicate TickOk(now: map<AccountId, Bundle>, was: map<AccountId, Bundle>, restarted: set<AccountId>,
                         desired: Option<Fingerprints>, idle: bool, first: BundleId) {
    && (idle || desired.None? ==> now == was - restarted)
    && (forall a :: a in now && a in restarted ==> now[a].id >= first)
    && (forall a :: a in was && a !in restarted && RunsAsDesired(was[a], desired, a) ==> a in now && now[a] == was[a])
  }

  predicate RunsAsDesired(bundle: Bundle, desired: Option<Fingerprints>, a: AccountId) {
    desired.Some? && a in desired.value && desired.value[a] == bundle.updatedAt
  }

  /** What the tick's second half makes of the registry. */
  ghost predicate Adopted(now: map<AccountId, Bundle>, was: map<AccountId, Bundle>, desired: Option<Fingerprints>,
                          idle: bool, first: BundleId) {
    if idle || desired.None? then now == was
    else OnlyTouched(now, was, Differing(Prints(was), desired.value), first)
  }

  lemma TickIsOk(now: map<AccountId, Bundle>, was: map<AccountId, Bundle>, restarted: set<AccountId>,
                 mid: map<AccountId, Bundle>, desired: Option<Fingerprints>, idle: bool, first: BundleId)
    requires mid == was - restarted && Adopted(now, mid, desired, idle, first)
    ensures TickOk(now, was, restarted, desired, idle, first)
  {
  }

  /** The accounts a run of commands restarts. */
  function Restarted(cmds: seq<Command>): set<AccountId> {
    set c | c in cmds && c.RestartAccount? :: c.account
  }

  lemma OneMoreCommand(cmds: seq<Command>, i: nat)
    requires i < |cmds|
    ensures DrainStop in cmds[..i + 1] <==> DrainStop in cmds[..i] || cmds[i].DrainStop?
    ensures Restarted(cmds[..i + 1])
            == Restarted(cmds[..i]) + if cmds[i].RestartAccount? then {cmds[i].account} else {}
  {
    assert cmds[..i + 1] == cmds[..i] + [cmds[i]];
  }

  class Daemon {
    var threads: map<AccountId, Bundle>
    var signalled: set<BundleId>        // bundles whose stop event is set
    ghost var stranded: set<BundleId>   // an idle thread runs, nothing holds its stop event
    var nextBundle: BundleId            // every id below was spawned
    var stopping: bool
    var clock: real
    ghost var since: real               // when the tick began
    ghost var joined: nat               // accounts it has torn down

    constructor ()
      ensures Valid() && threads == map[] && nextBundle == 0 && !stopping && stranded == {}
    {
      threads, signalled, nextBundle, stopping, clock := map[], {}, 0, false, 0.0;
      stranded, since, joined := {}, 0.0, 0;
    }

    function Running(): Fingerprints
      reads this`threads
    {
      Prints(threads)
    }

    /** The tick has spent no more than twice the grace on each account it tore down. */
    ghost predicate OnTime(grace: real)
      requires grace >= 0.0
      reads this`since, this`joined, this`clock
    {
      SpentOn(joined, since, clock, grace)
    }

    ghost predicate Registered(b: BundleId)
      reads this`threads
    {
      exists a :: a in threads && threads[a].id == b
    }

    /** No bundle is out of reach: each is registered, or has been told to stop. */
    ghost predicate AllInReach()
      reads this`threads, this`signalled, this`nextBundle
    {
      forall b :: 0 <= b < nextBundle ==> Registered(b) || b in signalled
    }

    /** Each bundle is registered, has been told to stop, or is stranded. */
    ghost predicate Valid()
      reads this`threads, this`signalled, this`nextBundle, this`stranded
    {
      && (forall b :: 0 <= b < nextBundle ==> Registered(b) || b in signalled || b in stranded)
      && (forall b :: b in signalled ==> b < nextBundle)
      && (forall b :: b in stranded ==> b < nextBundle && b !in signalled && !Registered(b))
      && (forall a :: a in threads ==> threads[a].id < nextBundle)
      && (forall a, c :: a in threads && c in threads && threads[a].id == threads[c].id ==> a == c)
    }

    /** A running idle thread that nothing can reach. */
    method Strand()
      requires Valid()
      modifies this`nextBundle, this`stranded
      ensures Valid()
      ensures stranded == old(stranded) + {old(nextBundle)} && nextBundle == old(nextBundle) + 1
    {
      stranded, nextBundle := stranded + {nextBundle}, nextBundle + 1;
      assert forall x :: old(Registered(x)) <==> Registered(x);
    }

    method Register(a: AccountId, updatedAt: Time)
      requires Valid() && a !in threads
      modifies this`threads, this`nextBundle
      ensures Valid() && nextBundle == old(nextBundle) + 1
      ensures threads == old(threads)[a := Bundle(old(nextBundle), updatedAt)]
    {
      ghost var b := nextBundle;
      threads, nextBundle := threads[a := Bundle(nextBundle, updatedAt)], nextBundle + 1;
      forall x ensures Registered(x) <==> x == b || old(Registered(x)) {
        if x == b {
          assert threads[a].id == x;
        } else if old(Registered(x)) {
          var c :| c in old(threads) && old(threads)[c].id == x;
          assert threads[c].id == x;
        }
      }
    }

    /** The registry entry is overwritten, so a running account must be torn down
        first: otherwise its bundle would run on, out of reach. It is made only
        after both threads have started: an idle thread whose poll thread then
        raises is out of reach too. */
    method SpawnAccount(a: AccountId, updatedAt: Time, started: Started) returns (raised: bool)
      requires Valid() && a !in threads
      modifies this`threads, this`nextBundle, this`stranded
      ensures Valid() && raised == !started.Both?
      ensures Running() == if raised then old(Running()) else old(Running())[a := updatedAt]
      ensures stranded == old(stranded) + if started.IdleOnly? then {old(nextBundle)} else {}
      ensures nextBundle == old(nextBundle) + if started.Neither? then 0 else 1
      ensures threads == if raised then old(threads) else old(threads)[a := Bundle(old(nextBundle), updatedAt)]
    {
      match started {
        case Neither =>
        case IdleOnly => Strand();
        case Both => Register(a, updatedAt);
      }
      raised := !started.Both?;
    }

    method TeardownAccount(a: AccountId, pair: Pair, grace: real)
      requires Valid() && grace >= 0.0 && OnTime(grace)
      modifies this`threads, this`signalled, this`clock, this`joined
      ensures Valid() && Running() == old(Running()) - {a}
      ensures signalled == old(signalled) + if a in old(threads) then {old(threads)[a].id} else {}
      ensures OnTime(grace) && joined == old(joined) + if a in old(threads) then 1 else 0
      ensures clock == if a in old(threads) then TeardownEnds(old(clock), pair, grace) else old(clock)
      ensures threads == old(threads) - {a}
    {
      if a !in threads {
        return;
      }
      var bundle := threads[a];
      threads := threads - {a};
      signalled := signalled + {bundle.id};
      clock := JoinReturns(clock, pair.0, grace);
      clock := JoinReturns(clock, pair.1, grace);
      joined := joined + 1;
      SpentInTurn(joined - 1, 1, since, old(clock), clock, grace);
      assert old(threads)[a].id == bundle.id;
      forall x | old(Registered(x)) && x != bundle.id ensures Registered(x) {
        var c :| c in old(threads) && old(threads)[c].id == x;
        assert c in threads && threads[c].id == x;
      }
    }

    method ApplyCommand(cmd: Command, pairs: AccountId -> Pair, grace: real)
      requires Valid() && grace >= 0.0 && OnTime(grace)
      modifies this`threads, this`signalled, this`stopping, this`clock, this`joined
      ensures Valid() && OnTime(grace) && joined <= old(joined) + 1
      ensures stopping == (old(stopping) || cmd.DrainStop?) && old(signalled) <= signalled
      ensures threads == if cmd.RestartAccount? then old(threads) - {cmd.account} else old(threads)
    {
      match cmd {
        case DrainStop => stopping := true;
        case RestartAccount(a) => TeardownAccount(a, pairs(a), grace);
        case ReloadNow =>
        case Unknown =>
      }
    }

    method DrainCommands(cmds: seq<Command>, pairs: AccountId -> Pair, grace: real)
      requires Valid() && grace >= 0.0 && OnTime(grace)
      modifies this`threads, this`signalled, this`stopping, this`clock, this`joined
      ensures Valid() && stopping == (old(stopping) || DrainStop in cmds)
      ensures OnTime(grace) && joined <= old(joined) + |cmds|
      ensures old(signalled) <= signalled && threads == old(threads) - Restarted(cmds)
      ensures |Running()| <= |old(Running())|
    {
      for i := 0 to |cmds|
        invariant Valid() && stopping == (old(stopping) || DrainStop in cmds[..i])
        invariant OnTime(grace) && joined <= old(joined) + i
        invariant old(signalled) <= signalled && threads == old(threads) - Restarted(cmds[..i])
      {
        ApplyCommand(cmds[i], pairs, grace);
        OneMoreCommand(cmds, i);
        if cmds[i].RestartAccount? {
          WithoutInTurn(old(threads), Restarted(cmds[..i]), cmds[i].account);
        }
      }
      assert cmds[..|cmds|] == cmds;
      FewerRun(threads, old(threads), Restarted(cmds));
    }

    method Teardown(accounts: seq<AccountId>, pairs: AccountId -> Pair, grace: real)
      requires Valid() && grace >= 0.0 && OnTime(grace)
      modifies this`threads, this`signalled, this`clock, this`joined
      ensures Valid() && old(signalled) <= signalled
      ensures OnTime(grace) && joined <= old(joined) + |accounts|
      ensures RunsAs(Running(), old(Running()).Keys - Elements(accounts), old(Running()), map[], {})
      ensures OnlyTouched(threads, old(threads), Elements(accounts), old(nextBundle))
    {
      for i := 0 to |accounts|
        invariant Valid() && old(signalled) <= signalled
        invariant OnTime(grace) && joined <= old(joined) + i
        invariant threads == old(threads) - Elements(accounts[..i])
      {
        ElementsSnoc(accounts, i);
        TeardownAccount(accounts[i], pairs(accounts[i]), grace);
        WithoutInTurn(old(threads), Elements(accounts[..i]), accounts[i]);
      }
      assert accounts[..|accounts|] == accounts;
      WithoutRunsAs(threads, old(threads), Elements(accounts));
      WithoutTouched(threads, old(threads), Elements(accounts), old(nextBundle));
    }

    method RespawnAccount(a: AccountId, updatedAt: Time, started: Started, pairs: AccountId -> Pair, grace: real)
      returns (raised: bool)
      requires Valid() && grace >= 0.0 && OnTime(grace)
      modifies this`threads, this`signalled, this`nextBundle, this`stranded, this`clock, this`joined
      ensures Valid() && old(signalled) <= signalled
      ensures OnTime(grace) && joined <= old(joined) + 1
      ensures raised == !started.Both? && (!raised ==> Running() == old(Running())[a := updatedAt])
      ensures OnlyTouched(threads, old(threads), {a}, old(nextBundle)) && old(nextBundle) <= nextBundle
      ensures old(stranded) <= stranded && (stranded != old(stranded) <==> started.IdleOnly?)
    {
      TeardownAccount(a, pairs(a), grace);
      PutBack(old(Running()), a, updatedAt);
      raised := SpawnAccount(a, updatedAt, started);
    }

    method Respawn(accounts: seq<AccountId>, desired: Fingerprints, starts: AccountId -> Started,
                   pairs: AccountId -> Pair, grace: real)
      returns (raised: bool)
      requires Valid() && Elements(accounts) <= desired.Keys && grace >= 0.0 && OnTime(grace)
      modifies this`threads, this`signalled, this`nextBundle, this`stranded, this`clock, this`joined
      ensures Valid() && old(signalled) <= signalled
      ensures OnTime(grace) && joined <= old(joined) + |accounts|
      ensures SpawnOutcome(old(stranded), stranded, raised, Elements(accounts), starts)
      ensures !raised ==>
                RunsAs(Running(), old(Running()).Keys + Elements(accounts), old(Running()), desired, Elements(accounts))
      ensures OnlyTouched(threads, old(threads), Elements(accounts), old(nextBundle)) && old(nextBundle) <= nextBundle
    {
      for i := 0 to |accounts|
        invariant Elements(accounts[..i]) <= Elements(accounts)
        invariant OnlyTouched(threads, old(threads), Elements(accounts[..i]), old(nextBundle))
        invariant Valid() && old(signalled) <= signalled && old(nextBundle) <= nextBundle
        invariant OnTime(grace) && joined <= old(joined) + i
        invariant SpawnOutcome(old(stranded), stranded, false, Elements(accounts[..i]), starts)
        invariant RunsAs(Running(), old(Running()).Keys + Elements(accounts[..i]), old(Running()), desired,
                       Elements(accounts[..i]))
      {
        ghost var mid, next := threads, nextBundle;
        ElementsSnoc(accounts, i);
        assert accounts[i] in Elements(accounts);
        raised := RespawnAccount(accounts[i], desired[accounts[i]], starts(accounts[i]), pairs, grace);
        TouchedInTurn(threads, mid, old(threads), Elements(accounts[..i]), {accounts[i]}, old(nextBundle), next);
        if raised {
          MoreTouched(threads, old(threads), Elements(accounts[..i + 1]), Elements(accounts), old(nextBundle));
          return;
        }
      }
      assert accounts[..|accounts|] == accounts;
      raised := false;
    }

    method Spawn(accounts: seq<AccountId>, desired: Fingerprints, starts: AccountId -> Started)
      returns (raised: bool)
      requires Valid() && Ascending(accounts) && Elements(accounts) <= desired.Keys
      requires Elements(accounts) !! Running().Keys
      modifies this`threads, this`nextBundle, this`stranded
      ensures Valid()
      ensures SpawnOutcome(old(stranded), stranded, raised, Elements(accounts), starts)
      ensures !raised ==>
                RunsAs(Running(), old(Running()).Keys + Elements(accounts), old(Running()), desired, Elements(accounts))
      ensures OnlyTouched(threads, old(threads), Elements(accounts), old(nextBundle)) && old(nextBundle) <= nextBundle
    {
      for i := 0 to |accounts|
        invariant Elements(accounts[..i]) <= Elements(accounts)
        invariant OnlyTouched(threads, old(threads), Elements(accounts[..i]), old(nextBundle))
        invariant Valid() && old(nextBundle) <= nextBundle
        invariant SpawnOutcome(old(stranded), stranded, false, Elements(accounts[..i]), starts)
        invariant RunsAs(Running(), old(Running()).Keys + Elements(accounts[..i]), old(Running()), desired,
                       Elements(accounts[..i]))
      {
        ElementsSnoc(accounts, i);
        assert accounts[i] in Elements(accounts) && accounts[i] !in accounts[..i];
        assert accounts[i] !in Running();
        raised := SpawnAccount(accounts[i], desired[accounts[i]], starts(accounts[i]));
        if raised {
          MoreTouched(threads, old(threads), Elements(accounts[..i]), Elements(accounts), old(nextBundle));
          return;
        }
      }
      assert accounts[..|accounts|] == accounts;
      raised := false;
    }

    /** The half of a plan that joins threads. */
    method Retire(plan: ReconcilePlan, desired: Fingerprints, starts: AccountId -> Started,
                  pairs: AccountId -> Pair, grace: real)
      returns (raised: bool, ghost r1: Fingerprints)
      requires Valid() && Elements(plan.toRespawn) <= desired.Keys && grace >= 0.0 && OnTime(grace)
      modifies this`threads, this`signalled, this`nextBundle, this`stranded, this`clock, this`joined
      ensures Valid() && old(signalled) <= signalled
      ensures OnTime(grace) && joined <= old(joined) + plan.Joining()
      ensures SpawnOutcome(old(stranded), stranded, raised, Elements(plan.toRespawn), starts)
      ensures RunsAs(r1, old(Running()).Keys - Elements(plan.toTeardown), old(Running()), map[], {})
      ensures !raised ==> RunsAs(Running(), r1.Keys + Elements(plan.toRespawn), r1, desired, Elements(plan.toRespawn))
      ensures OnlyTouched(threads, old(threads), Elements(plan.toTeardown) + Elements(plan.toRespawn), old(nextBundle))
      ensures old(nextBundle) <= nextBundle
    {
      Teardown(plan.toTeardown, pairs, grace);
      r1 := Running();
      ghost var mid := threads;
      raised := Respawn(plan.toRespawn, desired, starts, pairs, grace);
      TouchedInTurn(threads, mid, old(threads), Elements(plan.toTeardown), Elements(plan.toRespawn),
                    old(nextBundle), old(nextBundle));
    }

    /** Teardown, respawn, spawn, in that order. An exception leaves the rest of
        the plan undone. */
    method Execute(plan: ReconcilePlan, desired: Fingerprints, starts: AccountId -> Started,
                   pairs: AccountId -> Pair, grace: real)
      returns (raised: bool)
      requires Valid() && grace >= 0.0 && OnTime(grace) && IsPlan(plan, Running(), desired)
      modifies this`threads, this`signalled, this`nextBundle, this`stranded, this`clock, this`joined
      ensures Valid() && old(signalled) <= signalled
      ensures OnTime(grace) && joined <= old(joined) + plan.Joining()
      ensures SpawnOutcome(old(stranded), stranded, raised, ToStart(old(Running()), desired), starts)
      ensures !raised ==> Running() == desired
      ensures OnlyTouched(threads, old(threads), Accounts(plan), old(nextBundle))
    {
      ghost var was, r1 := Running(), map[];
      raised, r1 := Retire(plan, desired, starts, pairs, grace);
      if raised {
        MoreTouched(threads, old(threads), Elements(plan.toTeardown) + Elements(plan.toRespawn), Accounts(plan),
                    old(nextBundle));
        return;
      }
      ghost var r2, mid, next := Running(), threads, nextBundle;
      raised := Spawn(plan.toSpawn, desired, starts);
      TouchedInTurn(threads, mid, old(threads), Elements(plan.toTeardown) + Elements(plan.toRespawn),
                    Elements(plan.toSpawn), old(nextBundle), next);
      if !raised {
        PlanConverges(was, r1, r2, Running(), desired);
      }
    }

    method ApplyPlan(desired: Fingerprints, starts: AccountId -> Started, pairs: AccountId -> Pair, grace: real)
      returns (raised: bool)
      requires Valid() && grace >= 0.0 && OnTime(grace)
      modifies this`threads, this`signalled, this`nextBundle, this`stranded, this`clock, this`joined
      ensures Valid() && old(signalled) <= signalled
      ensures OnTime(grace) && joined <= old(joined) + |old(Running())|
      ensures SpawnOutcome(old(stranded), stranded, raised, ToStart(old(Running()), desired), starts)
      ensures !raised ==> Running() == desired
      ensures OnlyTouched(threads, old(threads), Differing(old(Running()), desired), old(nextBundle))
    {
      raised := false;
      var plan := MakePlan(Running(), desired);
      if !IsEmpty(plan) {
        PlanTouches(plan, Running(), desired);
        raised := Execute(plan, desired, starts, pairs, grace);
      }
    }

    /** The tick's second half: nothing when told to stop, or when the accounts
        cannot be read. */
    method Adopt(desired: Option<Fingerprints>, starts: AccountId -> Started, pairs: AccountId -> Pair, grace: real)
      returns (raised: bool)
      requires Valid() && grace >= 0.0 && OnTime(grace)
      modifies this`threads, this`signalled, this`nextBundle, this`stranded, this`clock, this`joined
      ensures Valid() && old(signalled) <= signalled
      ensures !stopping && !raised && desired.Some? ==> Running() == desired.value
      ensures raised ==> !stopping && desired.Some? && StartFailed(old(stranded), stranded, desired.value, starts)
      ensures !raised ==> stranded == old(stranded)
      ensures OnTime(grace) && joined <= old(joined) + |old(Running())|
      ensures Adopted(threads, old(threads), desired, stopping, old(nextBundle))
    {
      raised := false;
      if !stopping && desired.Some? {
        raised := ApplyPlan(desired.value, starts, pairs, grace);
      }
    }

    /** Commands first. */
    method Tick(cmds: seq<Command>, desired: Option<Fingerprints>, starts: AccountId -> Started,
                pairs: AccountId -> Pair, grace: real)
      returns (raised: bool)
      requires Valid() && grace >= 0.0 && OnTime(grace)
      modifies this`threads, this`signalled, this`nextBundle, this`stopping, this`stranded, this`clock, this`joined
      ensures Valid() && stopping == (old(stopping) || DrainStop in cmds) && old(signalled) <= signalled
      ensures !stopping && !raised && desired.Some? ==> Running() == desired.value
      ensures raised ==> !stopping && desired.Some? && StartFailed(old(stranded), stranded, desired.value, starts)
      ensures !raised ==> stranded == old(stranded)
      ensures OnTime(grace) && joined <= old(joined) + |cmds| + |old(Running())|
      ensures TickOk(threads, old(threads), Restarted(cmds), desired, stopping, old(nextBundle))
    {
      DrainCommands(cmds, pairs, grace);
      ghost var mid := threads;
      raised := Adopt(desired, starts, pairs, grace);
      TickIsOk(threads, old(threads), Restarted(cmds), mid, desired, stopping, old(nextBundle));
    }

    /** One tick. `desired` is None when the accounts cannot be read. After a tick
        that read them, was not stopped and did not raise, what runs is what
        should. The tick may spend twice the grace on each account it tears down. */
    method Reconcile(cmds: seq<Command>, desired: Option<Fingerprints>, starts: AccountId -> Started,
                     pairs: AccountId -> Pair, grace: real)
      returns (raised: bool)
      requires Valid() && grace >= 0.0
      modifies this`threads, this`signalled, this`nextBundle, this`stopping, this`stranded, this`clock,
               this`since, this`joined
      ensures Valid() && stopping == (old(stopping) || DrainStop in cmds) && old(signalled) <= signalled
      ensures !stopping && !raised && desired.Some? ==> Running() == desired.value
      ensures raised ==> !stopping && desired.Some? && StartFailed(old(stranded), stranded, desired.value, starts)
      ensures !raised ==> stranded == old(stranded)
      ensures OnTime(grace) && since == old(clock) && joined <= |cmds| + |old(Running())|
      ensures TickOk(threads, old(threads), Restarted(cmds), desired, stopping, old(nextBundle))
    {
      since, joined := clock, 0;
      raised := Tick(cmds, desired, starts, pairs, grace);
    }

    /** `stop`: callable from another thread; signals what is registered now. */
    method Stop()
      requires Valid()
      modifies this`signalled, this`stopping
      ensures Valid() && stopping
      ensures forall a :: a in threads ==> threads[a].id in signalled
      ensures old(signalled) <= signalled
    {
      stopping := true;
      signalled := signalled + (set a | a in threads :: threads[a].id);
      assert forall x :: old(Registered(x)) ==> Registered(x);
    }

    // --- the shutdown ----------------------------------------------------------------

    /** Only called once every event of the shutdown is set. */
    method Join(worker: Worker, timeout: real, ghost events: set<BundleId>)
      requires timeout >= 0.0 && events <= signalled
      modifies this`clock
      ensures clock == JoinReturns(old(clock), worker, timeout)
    {
      clock := JoinReturns(clock, worker, timeout);
    }

    /** Every event set, then every thread joined, against one deadline. */
    method WindDownThreads(events: set<BundleId>, workers: seq<Worker>, grace: real) returns (left: real)
      requires grace >= 0.0
      modifies this`signalled, this`clock
      ensures signalled == old(signalled) + events
      ensures clock == ShutdownEnds(old(clock), workers, grace)
      ensures left == old(clock) + grace - clock
    {
      signalled := signalled + events;
      var deadline := clock + grace;
      ghost var start := clock;
      for i := 0 to |workers|
        invariant signalled == old(signalled) + events
        invariant start <= clock <= deadline
        invariant clock == ShutdownEnds(start, workers[..i], grace)
      {
        assert workers[..i + 1][..i] == workers[..i];
        Join(workers[i], RemainingSeconds(deadline, clock), events);
      }
      assert workers[..|workers|] == workers;
      left := RemainingSeconds(deadline, clock);
    }

    /** `_shutdown_all_threads`: the registry is emptied and every bundle ever
        spawned has been told to stop, but for the stranded ones. */
    method ShutdownAllThreads(workers: seq<Worker>, grace: real) returns (left: real)
      requires Valid() && grace >= 0.0
      modifies this
      ensures Valid() && threads == map[] && stopping
      ensures stranded == old(stranded) && forall b :: 0 <= b < nextBundle ==> (b in signalled <==> b !in stranded)
      ensures clock == ShutdownEnds(old(clock), workers, grace)
    {
      stopping := true;
      var events := set a | a in threads :: threads[a].id;
      threads := map[];
      left := WindDownThreads(events, workers, grace);
      forall b | 0 <= b < nextBundle ensures b in signalled <==> b !in stranded {
        if old(Registered(b)) {
          var a :| a in old(threads) && old(threads)[a].id == b;
          assert b in events;
        }
      }
    }
  }

  /** Exactly then every bundle ever spawned is registered or has been told to
      stop: no poll thread has raised after its idle thread had started. */
  lemma InReachExactly(d: Daemon)
    requires d.Valid()
    ensures d.AllInReach() <==> d.stranded == {}
  {
    if b :| b in d.stranded {
      assert !d.Registered(b);
    }
  }

  /** When the last join returns: the slowest worker's end, within the grace. */
  function ShutdownEnds(start: real, workers: seq<Worker>, grace: real): real
    decreases |workers|
  {
    if workers == [] then start
    else
      var earlier := ShutdownEnds(start, workers[..|workers| - 1], grace);
      var last := workers[|workers| - 1];
      var deadline := start + grace;
      if EndedBy(last, earlier) || deadline <= earlier then earlier
      else if EndedBy(last, deadline) then last.value
      else deadline
  }

  /** The budget bounds the slowest worker, not the sum: the shutdown ends by
      start + grace, before the supervisor's kill, and no sooner than it must —
      at an end it waited for every worker that ends within the grace. */
  lemma {:induction false} ShutdownBudget(start: real, workers: seq<Worker>, grace: real)
    requires grace >= 0.0
    ensures var end := ShutdownEnds(start, workers, grace);
            && start <= end <= start + grace < start + SupervisorKillAfter(grace)
            && (forall i :: 0 <= i < |workers| && EndedBy(workers[i], start + grace) ==> EndedBy(workers[i], end))
            && (end == start || end == start + grace || Some(end) in workers)
            && (end == start + grace && grace > 0.0 ==>
                  exists i :: 0 <= i < |workers|
                    && !(EndedBy(workers[i], start + grace) && workers[i].value < start + grace))
    decreases |workers|
  {
    if workers != [] {
      var n := |workers| - 1;
      ShutdownBudget(start, workers[..n], grace);
      assert workers == workers[..n] + [workers[n]];
      var end := ShutdownEnds(start, workers, grace);
      assert forall i :: 0 <= i < n ==> workers[..n][i] == workers[i];
      if end == start + grace && grace > 0.0 {
        if ShutdownEnds(start, workers[..n], grace) == end {
          var i :| 0 <= i < n && !(EndedBy(workers[..n][i], start + grace) && workers[..n][i].value < start + grace);
          assert workers[i] == workers[..n][i];
        } else {
          assert !(EndedBy(workers[n], start + grace) && workers[n].value < start + grace);
        }
      }
    }
  }

  // --- from SIGTERM to the kill ----------------------------------------------------------

  /** The rest of a tick that SIGTERM arrived in: the teardowns still to come. */
  function TickEnds(start: real, pairs: seq<Pair>, grace: real): (end: real)
    requires grace >= 0.0
    decreases |pairs|
  {
    if pairs == [] then start
    else TeardownEnds(TickEnds(start, pairs[..|pairs| - 1], grace), pairs[|pairs| - 1], grace)
  }

  lemma {:induction false} TickIsBounded(start: real, pairs: seq<Pair>, grace: real)
    requires grace >= 0.0
    ensures SpentOn(|pairs|, start, TickEnds(start, pairs, grace), grace)
    decreases |pairs|
  {
    if pairs != [] {
      var n := |pairs| - 1;
      var earlier := TickEnds(start, pairs[..n], grace);
      TickIsBounded(start, pairs[..n], grace);
      SpentInTurn(n, 1, start, earlier, TickEnds(start, pairs, grace), grace);
    }
  }

  /** Accounts whose threads do not stop. */
  function Stuck(n: nat): seq<Pair> {
    seq(n, _ => (None, None))
  }

  lemma {:induction false} StuckTakesAll(start: real, n: nat, grace: real)
    requires grace >= 0.0
    ensures TickEnds(start, Stuck(n), grace) == start + Joins(n, grace)
  {
    if n > 0 {
      StuckTakesAll(start, n - 1, grace);
      assert Stuck(n)[..n - 1] == Stuck(n - 1);
    }
  }

  /** `n` teardowns of the running tick after SIGTERM, then the shutdown: over in
      time whatever the threads do. */
  ghost predicate AlwaysBeforeKill(sigterm: real, n: nat, grace: real)
    requires grace >= 0.0
  {
    forall pairs: seq<Pair>, workers :: |pairs| == n ==>
      ShutdownEnds(TickEnds(sigterm, pairs, grace), workers, grace) < sigterm + SupervisorKillAfter(grace)
  }

  lemma {:induction false} JoinsIsProduct(n: nat, grace: real)
    requires grace >= 0.0
    ensures Joins(n, grace) == 2.0 * grace * (n as real)
  {
    if n > 0 {
      JoinsIsProduct(n - 1, grace);
      assert 2.0 * grace * (n as real) == 2.0 * grace * ((n - 1) as real) + 2.0 * grace;
    }
  }

  /** The margin covers exactly a lead below it: the supervisor counts from
      SIGTERM, and each account torn down first may take twice the grace. */
  lemma KillMarginExact(sigterm: real, n: nat, grace: real)
    requires grace >= 0.0
    ensures AlwaysBeforeKill(sigterm, n, grace) <==> 2.0 * grace * (n as real) < SUPERVISOR_KILL_MARGIN_S
  {
    JoinsIsProduct(n, grace);
    if Joins(n, grace) < SUPERVISOR_KILL_MARGIN_S {
      forall pairs: seq<Pair>, workers | |pairs| == n
        ensures ShutdownEnds(TickEnds(sigterm, pairs, grace), workers, grace) < sigterm + SupervisorKillAfter(grace)
      {
        TickIsBounded(sigterm, pairs, grace);
        ShutdownBudget(TickEnds(sigterm, pairs, grace), workers, grace);
      }
    } else {
      StuckTakesAll(sigterm, n, grace);
      var late := TickEnds(sigterm, Stuck(n), grace);
      var stuck: seq<Worker> := [None];
      assert stuck[..0] == [];
      assert ShutdownEnds(late, stuck, grace) == late + grace;
      assert |Stuck(n)| == n;
    }
  }
}
