/** The background sweep that reclaims actions whose holder stopped reporting: every processing action,
    of any account, whose lock is at least five minutes old is failed or re-queued. */
module StaleLockReaper {
  import opened Common
  import opened Query
  import opened ActionModel
  import opened RetryPolicy
  import opened Store

  const STALE_LOCK_ERROR_CODE := "STALE_LOCK_MAX_ATTEMPTS"
  const STALE_LOCK_ERROR_MESSAGE := "Action stuck in processing and max attempts exceeded"

  /** The outcome of one run: how many stale actions it handled, and whether it was skipped because
      the store was not reachable. */
  datatype ReapReport = ReapReport(processed: nat, skipped: bool)

  /** `find({status: 'processing', lockedAt: {$lte: now - 5 min}})`, across all accounts. */
  function StaleIds(actions: seq<Action>, now: Time): (ids: seq<Id>)
    ensures forall k :: 0 <= k < |ids| ==> ids[k] < |actions| && LockExpired(actions[ids[k]], now)
    ensures forall i :: 0 <= i < |actions| && LockExpired(actions[i], now) ==> i in ids
    ensures Distinct(ids)
  {
    Where(actions, (a: Action) => LockExpired(a, now))
  }

  /** What the reaper does to one stale action: with the attempt budget spent it fails the action with
      the stale-lock error, otherwise it re-queues it after the usual backoff. The lock is released, and
      the attempt count, owner account, type and payload stay as they were. */
  function Reap(a: Action, now: Time): (r: Action)
    ensures SameIdentity(a, r) && r.attemptCount == a.attemptCount
    ensures r.lockedAt == None && r.lockOwner == None && LockConsistent(r)
    ensures a.attemptCount >= MAX_ATTEMPTS ==>
              && r.status == Failed && r.nextRunAt == a.nextRunAt
              && r.lastErrorCode == Some(STALE_LOCK_ERROR_CODE)
              && r.lastErrorMessage == Some(STALE_LOCK_ERROR_MESSAGE)
    ensures a.attemptCount < MAX_ATTEMPTS ==>
              && r.status == Pending
              && r.nextRunAt == Some(now + BackoffMinutes(a.attemptCount) * MINUTE_MS)
              && now + MINUTE_MS <= r.nextRunAt.value <= now + 16 * MINUTE_MS
              && r.lastErrorCode == a.lastErrorCode && r.lastErrorMessage == a.lastErrorMessage
  {
    if a.attemptCount >= MAX_ATTEMPTS then
      a.(status := Failed, lockedAt := None, lockOwner := None,
         lastErrorCode := Some(STALE_LOCK_ERROR_CODE), lastErrorMessage := Some(STALE_LOCK_ERROR_MESSAGE))
    else
      BackoffWithinBudget(a.attemptCount);
      Requeue(a, now)
  }

  /** The table after a full run: every stale action reaped, every other action untouched. Afterwards
      no action is held under an expired lock. */
  function ReapAll(actions: seq<Action>, now: Time): (r: seq<Action>)
    ensures |r| == |actions|
    ensures forall i :: 0 <= i < |actions| && LockExpired(actions[i], now) ==> r[i] == Reap(actions[i], now)
    ensures forall i :: 0 <= i < |actions| && !LockExpired(actions[i], now) ==> r[i] == actions[i]
    ensures forall i :: 0 <= i < |r| ==> !LockExpired(r[i], now)
    ensures Evolves(actions, r)
    ensures forall i :: 0 <= i < |r| ==> r[i].attemptCount == actions[i].attemptCount
  {
    seq(|actions|, i requires 0 <= i < |actions| =>
      if LockExpired(actions[i], now) then Reap(actions[i], now) else actions[i])
  }

  /** The number of actions a run handles is the number of stale actions in the table. */
  lemma StaleCount(actions: seq<Action>, now: Time)
    ensures |StaleIds(actions, now)| == |set i | 0 <= i < |actions| && LockExpired(actions[i], now)|
  {
    var ids := StaleIds(actions, now);
    DistinctCardinality(ids);
    assert Elements(ids) == set i | 0 <= i < |actions| && LockExpired(actions[i], now);
  }

  /** The table once the actions listed in `done` have been reaped. */
  function ReapSome(actions: seq<Action>, done: seq<Id>, now: Time): (r: seq<Action>)
    ensures |r| == |actions|
    ensures AllLockConsistent(actions) ==> AllLockConsistent(r)
  {
    seq(|actions|, i requires 0 <= i < |actions| => if i in done then Reap(actions[i], now) else actions[i])
  }

  lemma ReapOneMore(actions: seq<Action>, done: seq<Id>, id: Id, now: Time)
    requires id < |actions| && id !in done
    ensures ReapSome(actions, done + [id], now) == ReapSome(actions, done, now)[id := Reap(actions[id], now)]
  {
  }

  lemma ReapedAllStale(actions: seq<Action>, now: Time)
    ensures ReapSome(actions, StaleIds(actions, now), now) == ReapAll(actions, now)
  {
  }

  /** One run of the reaper; `ready` is whether the store connection is up. */
  method ReapStaleLocks(db: Db, ready: bool, now: Time) returns (report: ReapReport)
    requires db.Valid()
    modifies db
    ensures db.Valid()
    ensures db.messages == old(db.messages) && db.clients == old(db.clients) && db.audit == old(db.audit)
    ensures !ready ==> report == ReapReport(0, true) && db.actions == old(db.actions)
    ensures ready ==> report == ReapReport(|StaleIds(old(db.actions), now)|, false)
    ensures ready ==> db.actions == ReapAll(old(db.actions), now)
    ensures Evolves(old(db.actions), db.actions) && |db.actions| == |old(db.actions)|
  {
    if !ready {
      return ReapReport(0, true);
    }
    var stale := StaleIds(db.actions, now);
    ghost var before := db.actions;
    for k := 0 to |stale|
      invariant db.actions == ReapSome(before, stale[..k], now)
      invariant db.messages == old(db.messages) && db.clients == old(db.clients) && db.audit == old(db.audit)
    {
      var id := stale[k];
      assert id !in stale[..k];
      assert stale[..k + 1] == stale[..k] + [id];
      ReapOneMore(before, stale[..k], id, now);
      db.actions := db.actions[id := Reap(db.actions[id], now)];
    }
    assert stale[..|stale|] == stale;
    ReapedAllStale(before, now);
    report := ReapReport(|stale|, false);
  }
}
