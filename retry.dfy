/** The `retry_failed_notifications` management command: every FAILED
    notification scheduled within the last `days` days (7 unless given) is
    sent again, in scheduled order, each under the lock on its id. The
    selection is read once, before the first resend; an exception that
    escapes a resend ends the command. */
module Retry {
  import opened Types
  import opened Lock
  import opened Registry
  import opened Models
  import opened Queries
  import opened Tasks
  import Channels

  const DefaultDays := 7
  const SecondsPerDay := 86400

  /** The start of the window: `days` days before now (times in seconds). */
  function Since(now: int, days: int): (since: int)
    ensures since + days * SecondsPerDay == now
    ensures days >= 0 ==> since <= now
  {
    now - days * SecondsPerDay
  }

  /** One resend of the instance read with row r: a lock timeout raises,
      otherwise the instance is sent (its status is not looked at again). */
  ghost function RetryStep(keys: set<string>, id: int, r: Row, entries: map<string, MessageClass>,
                           codec: Codec, run: Channels.HandlerRun, others: Contention, now: int): Outcome
  {
    if !Granted(keys, LockId(TaskKey(id)), DefaultTimeout, others) then
      Outcome(Keep, Some(LockTimeout(GiveUpWait(DefaultTimeout))))
    else Attempt(r, entries, codec, run, now)
  }

  /** The resends of ids, each with the row read before the loop, applied to
      rows; the first that raises ends the command. */
  ghost function RetryAll(keys: set<string>, snapshot: map<int, Row>, ids: seq<int>, rows: map<int, Row>,
                          entries: map<string, MessageClass>, codec: Codec,
                          runs: int -> Channels.HandlerRun, others: Contention, now: int): Progress
    requires forall i :: 0 <= i < |ids| ==> ids[i] in snapshot
    decreases |ids|
  {
    if ids == [] then Progress(rows, None)
    else
      var o := RetryStep(keys, ids[0], snapshot[ids[0]], entries, codec, runs(ids[0]), others, now);
      var after := Apply(rows, ids[0], o.effect);
      if o.error.Some? then Progress(after, o.error)
      else RetryAll(keys, snapshot, ids[1..], after, entries, codec, runs, others, now)
  }

  /** One iteration of the command: under the lock on id, notification.send()
      on the instance built from the row r read under id. */
  method RetryOne(reg: Registry, db: Database, cache: Cache, codec: Codec, id: int, r: Row,
                  run: Channels.HandlerRun, others: Contention, now: int)
    returns (err: Option<Error>)
    requires db.Valid() && 1 <= id < db.nextId
    modifies db, cache
    ensures db.Valid() && db.nextId == old(db.nextId) && cache.keys == old(cache.keys)
    ensures var o := RetryStep(old(cache.keys), id, r, reg.entries, codec, run, others, now);
      err == o.error && db.rows == Apply(old(db.rows), id, o.effect)
  {
    var held := Acquire(cache, TaskKey(id), DefaultTimeout, others);
    if held.Failure? {
      return Some(held.error);
    }
    var n := new Notification.FromRow(id, r);
    err := n.Send(reg, db, codec, run, now);
    Release(cache, TaskKey(id));
  }

  /** The command's loop over the selected ids, resending from the rows read
      before it; an error ends it. */
  method RetryEach(reg: Registry, db: Database, cache: Cache, codec: Codec, snapshot: map<int, Row>, ids: seq<int>,
                   runs: int -> Channels.HandlerRun, others: Contention, now: int)
    returns (err: Option<Error>)
    requires db.Valid()
    requires forall i :: 0 <= i < |ids| ==> ids[i] in snapshot
    requires forall k :: k in snapshot ==> 1 <= k < db.nextId
    modifies db, cache
    ensures db.Valid() && db.nextId == old(db.nextId) && cache.keys == old(cache.keys)
    ensures RetryAll(old(cache.keys), snapshot, ids, old(db.rows), reg.entries, codec, runs, others, now)
      == Progress(db.rows, err)
  {
    ghost var total := RetryAll(cache.keys, snapshot, ids, db.rows, reg.entries, codec, runs, others, now);
    var i := 0;
    while i < |ids|
      invariant 0 <= i <= |ids|
      invariant db.Valid() && db.nextId == old(db.nextId) && cache.keys == old(cache.keys)
      invariant RetryAll(cache.keys, snapshot, ids[i..], db.rows, reg.entries, codec, runs, others, now) == total
    {
      assert ids[i..][0] == ids[i] && ids[i..][1..] == ids[i + 1..];
      err := RetryOne(reg, db, cache, codec, ids[i], snapshot[ids[i]], runs(ids[i]), others, now);
      if err.Some? {
        return;
      }
      i := i + 1;
    }
    err := None;
  }

  /** Command.handle(days); `--days` defaults to DefaultDays. */
  method RetryFailedNotifications(reg: Registry, db: Database, cache: Cache, codec: Codec,
                                  runs: int -> Channels.HandlerRun, others: Contention, now: int,
                                  days: int := DefaultDays)
    returns (err: Option<Error>)
    requires db.Valid()
    modifies db, cache
    ensures db.Valid() && db.nextId == old(db.nextId) && cache.keys == old(cache.keys)
    ensures var ids := FailedIds(old(db.rows), Since(now, days), now);
      RetryAll(old(cache.keys), old(db.rows), ids, old(db.rows), reg.entries, codec, runs, others, now)
      == Progress(db.rows, err)
  {
    var snapshot := db.rows;
    var ids := FailedIds(snapshot, Since(now, days), now);
    err := RetryEach(reg, db, cache, codec, snapshot, ids, runs, others, now);
  }

  /** Each resend of a command over distinct ids acts on its own row only:
      rows outside ids are untouched, and when no resend raised, each row in
      ids is what its own resend makes of it. */
  lemma {:induction false} RetryPointwise(keys: set<string>, snapshot: map<int, Row>, ids: seq<int>,
                                          rows: map<int, Row>, entries: map<string, MessageClass>, codec: Codec,
                                          runs: int -> Channels.HandlerRun, others: Contention, now: int)
    requires forall i :: 0 <= i < |ids| ==> ids[i] in snapshot
    requires forall i, j :: 0 <= i < j < |ids| ==> ids[i] != ids[j]
    ensures var p := RetryAll(keys, snapshot, ids, rows, entries, codec, runs, others, now);
      && (forall k :: k !in ids ==> Lookup(p.rows, k) == Lookup(rows, k))
      && (p.error.None? ==> forall k :: k in ids ==>
            var o := RetryStep(keys, k, snapshot[k], entries, codec, runs(k), others, now);
            o.error.None? && Lookup(p.rows, k) == ApplyTo(Lookup(rows, k), o.effect))
    decreases |ids|
  {
    if ids != [] {
      var h := ids[0];
      var o := RetryStep(keys, h, snapshot[h], entries, codec, runs(h), others, now);
      var after := Apply(rows, h, o.effect);
      if o.error.None? {
        var t := ids[1..];
        assert forall i :: 0 <= i < |t| ==> t[i] in snapshot by {
          forall i | 0 <= i < |t| ensures t[i] in snapshot {
            assert t[i] == ids[i + 1];
          }
        }
        assert forall i, j :: 0 <= i < j < |t| ==> t[i] != t[j] by {
          forall i, j | 0 <= i < j < |t| ensures t[i] != t[j] {
            assert t[i] == ids[i + 1] && t[j] == ids[j + 1];
          }
        }
        RetryPointwise(keys, snapshot, t, after, entries, codec, runs, others, now);
        assert h !in t by {
          forall i | 0 <= i < |t| ensures t[i] != h {
            assert t[i] == ids[i + 1];
          }
        }
        forall k | k in t ensures k != h && Lookup(after, k) == Lookup(rows, k) { }
        assert forall k :: k in ids ==> k == h || k in t by {
          forall k | k in ids ensures k == h || k in t {
            var i :| 0 <= i < |ids| && ids[i] == k;
            if i > 0 { assert t[i - 1] == k; }
          }
        }
      }
    }
  }

  /** The command leaves alone every row that is not FAILED or was scheduled
      outside [now - days, now]: a CREATED notification is not sent by it,
      nor is a failure older than the window. */
  lemma RetryLeavesOthers(keys: set<string>, rows: map<int, Row>, days: int, entries: map<string, MessageClass>,
                          codec: Codec, runs: int -> Channels.HandlerRun, others: Contention, now: int, k: int)
    requires k in rows
    requires rows[k].status != Failed || rows[k].scheduled < Since(now, days) || rows[k].scheduled > now
    ensures var ids := FailedIds(rows, Since(now, days), now);
      Lookup(RetryAll(keys, rows, ids, rows, entries, codec, runs, others, now).rows, k) == Some(rows[k])
  {
    var ids := FailedIds(rows, Since(now, days), now);
    RetryPointwise(keys, rows, ids, rows, entries, codec, runs, others, now);
  }

  /** A FAILED notification inside the window whose message now goes out is
      SUCCESSFULLY_SENT and stamped processed after a command in which no
      resend raised. */
  lemma RetryResends(keys: set<string>, rows: map<int, Row>, days: int, entries: map<string, MessageClass>,
                     codec: Codec, runs: int -> Channels.HandlerRun, others: Contention, now: int, k: int)
    requires k in rows && rows[k].status == Failed && Since(now, days) <= rows[k].scheduled <= now
    requires Reaches(entries, rows[k].triggerName, runs(k), true) && runs(k).send.Returns?
    requires entries[rows[k].triggerName].behavior != DeleteAfterProcessing
    requires RetryAll(keys, rows, FailedIds(rows, Since(now, days), now), rows, entries, codec, runs, others, now).error.None?
    ensures var after := RetryAll(keys, rows, FailedIds(rows, Since(now, days), now), rows, entries, codec, runs, others, now).rows;
      k in after && after[k].status == SuccessfullySent && after[k].processed == Some(now)
  {
    var ids := FailedIds(rows, Since(now, days), now);
    RetryPointwise(keys, rows, ids, rows, entries, codec, runs, others, now);
    DeliveredIsSent(entries, rows[k].triggerName, runs(k), true);
    assert k in ids;
  }
}
