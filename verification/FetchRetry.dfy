/** Hold rows for UIDs whose body does not arrive, and the tombstones they become.

    One value of type `Holds` is the `transient_fetches` rows of one mailbox.
    `last_seen_at` is written and never read, so it is not kept. */
module FetchRetry {
  import opened Prelude
  import opened Uids

  type Time = int

  datatype Hold = Hold(attempts: nat, firstSeen: Time, gaveUp: Option<Time>)

  type Holds = map<Uid, Hold>

  predicate HoldExpired(firstSeen: Time, now: Time, maxHold: int) {
    maxHold <= 0 || now - firstSeen >= maxHold
  }

  predicate Tombstoned(holds: Holds, uid: Uid) {
    uid in holds && holds[uid].gaveUp.Some?
  }

  /** Upsert: a known row keeps its first sighting and its give-up moment. */
  function RecordAttempt(holds: Holds, uid: Uid, stamp: Time): (r: Holds)
    ensures r.Keys == holds.Keys + {uid}
  {
    if uid in holds then holds[uid := holds[uid].(attempts := holds[uid].attempts + 1)]
    else holds[uid := Hold(1, stamp, None)]
  }

  /** COALESCE(gave_up_at, now()): the moment is never restamped, and a missing
      row is not created. */
  function MarkGaveUp(holds: Holds, uid: Uid, stamp: Time): (r: Holds)
    ensures r.Keys == holds.Keys
  {
    if uid in holds && holds[uid].gaveUp.None? then
      holds[uid := holds[uid].(gaveUp := Some(stamp))]
    else holds
  }

  function ClearAttempts(holds: Holds, uid: Uid): Holds {
    holds - {uid}
  }

  /** Drop live holds the watermark has passed; tombstones are exempt. */
  function ReclaimBelow(holds: Holds, uid: int): Holds {
    map u | u in holds && (u >= uid || holds[u].gaveUp.Some?) :: holds[u]
  }

  /** Reopen the window of every tombstone, keeping its row and give-up moment. */
  function ArmForRetry(holds: Holds, stamp: Time): Holds {
    map u | u in holds ::
      if holds[u].gaveUp.Some? then holds[u].(attempts := 0, firstSeen := stamp)
      else holds[u]
  }

  predicate Purgeable(h: Hold, cutoff: Option<Time>) {
    && h.gaveUp.Some?
    && (cutoff.Some? ==> h.gaveUp.value < cutoff.value)
  }

  /** `--forget`: delete tombstones, all of them or those older than `cutoff`. */
  function PurgeGaveUp(holds: Holds, cutoff: Option<Time>): Holds {
    map u | u in holds && !Purgeable(holds[u], cutoff) :: holds[u]
  }

  function Tombstones(holds: Holds): set<Uid> {
    set u | u in holds && holds[u].gaveUp.Some?
  }

  /** Each failing fetch counts one more; the first sighting and the give-up moment
      are the first fetch's, and no other row is touched. */
  lemma AttemptsAreCounted(holds: Holds, uid: Uid, first: Time, later: Time, u: Uid)
    ensures var r := RecordAttempt(RecordAttempt(holds, uid, first), uid, later);
            && uid in r
            && r[uid] == (if uid in holds then holds[uid].(attempts := holds[uid].attempts + 2)
                          else Hold(2, first, None))
            && (u != uid ==> (u in r <==> u in holds) && (u in r ==> r[u] == holds[u]))
  {
  }

  /** However often a UID is given up on, its moment is that of the first time, and
      nothing else is touched. */
  lemma GiveUpMomentIsFirst(holds: Holds, uid: Uid, first: Time, later: Time, u: Uid)
    requires uid in holds && u in holds
    ensures var r := MarkGaveUp(MarkGaveUp(holds, uid, first), uid, later);
            && u in r && r[u].firstSeen == holds[u].firstSeen && r[u].attempts == holds[u].attempts
            && r[u].gaveUp == (if u != uid || Tombstoned(holds, u) then holds[u].gaveUp else Some(first))
  {
  }

  /** The watermark takes along the live rows it passes; tombstones and what lies
      ahead stay as they are. */
  lemma ReclaimTakesPassedHolds(holds: Holds, watermark: int, u: Uid)
    ensures var r := ReclaimBelow(holds, watermark);
            && (u in r <==> u in holds && (Tombstoned(holds, u) || watermark <= u))
            && (u in r ==> r[u] == holds[u])
  {
  }

  /** Arming gives every tombstone a whole window again and keeps it a tombstone;
      a live hold keeps the window it has. */
  lemma ArmingReopensTombstones(holds: Holds, stamp: Time, now: Time, maxHold: int, u: Uid)
    ensures var r := ArmForRetry(holds, stamp);
            && (u in r <==> u in holds)
            && (u in r && Tombstoned(holds, u) ==>
                  && r[u].gaveUp == holds[u].gaveUp
                  && (HoldExpired(r[u].firstSeen, now, maxHold) <==> maxHold <= 0 || now >= stamp + maxHold))
            && (u in r && !Tombstoned(holds, u) ==> r[u] == holds[u])
  {
  }

  /** Forgotten are tombstones, all of them or those given up before the cut-off. */
  lemma ForgetTakesOldTombstones(holds: Holds, cutoff: Option<Time>, u: Uid)
    ensures var r := PurgeGaveUp(holds, cutoff);
            && (u in holds && u !in r <==>
                  Tombstoned(holds, u) && (cutoff.Some? ==> holds[u].gaveUp.value < cutoff.value))
            && (u in r ==> u in holds && r[u] == holds[u])
  {
  }

  /** The rewind of one mailbox: its lowest tombstone, when that lies below a
      known watermark; otherwise nothing moves. */
  function RewindTarget(tombstones: set<Uid>, uidnext: Option<Uid>): (r: Option<Uid>)
    ensures r.Some? <==> uidnext.Some? && exists u :: u in tombstones && u < uidnext.value
    ensures r.Some? ==> r.value in tombstones && forall u :: u in tombstones ==> r.value <= u
  {
    if tombstones == {} || uidnext.None? then None
    else
      var lowest := Least(tombstones);
      if lowest < uidnext.value then Some(lowest) else None
  }

  type MailboxId = nat

  ghost function TombstonesOf(pairs: seq<(MailboxId, Uid)>, m: MailboxId): set<Uid> {
    set p | p in pairs && p.0 == m :: p.1
  }

  /** `plan_uidnext_rewind`: every mailbox is planned exactly as `RewindTarget`
      plans it alone, whatever order the tombstones come in. */
  method PlanUidnextRewind(tombstones: seq<(MailboxId, Uid)>, current: map<MailboxId, Uid>)
    returns (plan: map<MailboxId, Uid>)
    ensures plan.Keys <= current.Keys
    ensures forall m :: m in current ==>
              RewindTarget(TombstonesOf(tombstones, m), Some(current[m])) == Get(plan, m)
  {
    var lowest: map<MailboxId, Uid> := map[];
    for i := 0 to |tombstones|
      invariant lowest.Keys <= current.Keys
      invariant forall m :: m in current ==> IsLowest(Get(lowest, m), tombstones[..i], m)
    {
      var (mailbox, uid) := tombstones[i];
      ghost var was := lowest;
      if mailbox in current {
        lowest := lowest[mailbox := Min(uid, if mailbox in lowest then lowest[mailbox] else uid)];
      }
      forall m | m in current ensures IsLowest(Get(lowest, m), tombstones[..i + 1], m) {
        TombstonesSnoc(tombstones, i, m);
        assert IsLowest(Get(was, m), tombstones[..i], m);
      }
    }
    assert tombstones[..|tombstones|] == tombstones;
    plan := map m | m in lowest && lowest[m] < current[m] :: lowest[m];
    forall m | m in current
      ensures RewindTarget(TombstonesOf(tombstones, m), Some(current[m])) == Get(plan, m)
    {
      assert IsLowest(Get(lowest, m), tombstones, m);
    }
  }

  function Get<K, V>(m: map<K, V>, k: K): Option<V> {
    if k in m then Some(m[k]) else None
  }

  ghost predicate IsLowest(lowest: Option<Uid>, pairs: seq<(MailboxId, Uid)>, m: MailboxId) {
    match lowest
    case None => TombstonesOf(pairs, m) == {}
    case Some(u) => IsLeast(u, TombstonesOf(pairs, m))
  }

  lemma TombstonesSnoc(pairs: seq<(MailboxId, Uid)>, i: nat, m: MailboxId)
    requires i < |pairs|
    ensures TombstonesOf(pairs[..i + 1], m)
            == TombstonesOf(pairs[..i], m) + (if m == pairs[i].0 then {pairs[i].1} else {})
  {
    assert pairs[..i + 1] == pairs[..i] + [pairs[i]];
  }
}
