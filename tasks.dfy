/** The dispatcher: `process_notification` sends one CREATED notification
    under a lock on its id, and `process_all_notifications` hands every due,
    unprocessed notification to it in scheduled order. Tasks run eagerly:
    an exception a task lets escape ends the sweep. */
module Tasks {
  import opened Types
  import opened Text
  import opened Lock
  import opened Registry
  import opened Models
  import opened Queries
  import Channels
  import Trigger

  /** What one step does to the row under its id. */
  datatype Effect = Keep | Store(row: Row) | Drop

  /** A step's effect on its row and the exception it lets escape, if any. */
  datatype Outcome = Outcome(effect: Effect, error: Option<Error>)

  /** The rows after a run of steps, and the exception that ended it early, if any. */
  datatype Progress = Progress(rows: map<int, Row>, error: Option<Error>)

  function Lookup(rows: map<int, Row>, id: int): Option<Row> {
    if id in rows then Some(rows[id]) else None
  }

  function ApplyTo(stored: Option<Row>, e: Effect): Option<Row> {
    match e
    case Keep => stored
    case Store(r) => Some(r)
    case Drop => None
  }

  /** The store after an effect on id: that row changes as the effect says, no other does. */
  function Apply(rows: map<int, Row>, id: int, e: Effect): (after: map<int, Row>)
    ensures Lookup(after, id) == ApplyTo(Lookup(rows, id), e)
    ensures forall k :: k != id ==> Lookup(after, k) == Lookup(rows, k)
    ensures after.Keys <= rows.Keys + {id}
  {
    match e
    case Keep => rows
    case Store(r) => rows[id := r]
    case Drop => rows - {id}
  }

  /** notification.send() on an instance holding the stored row r under its
      id, its data not yet read: the row is deleted after a clean
      DELETE_AFTER_PROCESSING attempt, otherwise stored with the attempt's
      status, stamped processed at now and its data re-encoded. */
  function Attempt(r: Row, entries: map<string, MessageClass>, codec: Codec, run: Channels.HandlerRun, now: int)
    : (o: Outcome)
    ensures !o.effect.Keep?
    ensures o.effect.Drop? ==>
      o.error.None? && r.triggerName in entries && entries[r.triggerName].behavior == DeleteAfterProcessing
    ensures o.effect.Store? ==>
      && o.effect.row.status != Created && o.effect.row.processed == Some(now)
      && o.effect.row == r.(status := o.effect.row.status, processed := Some(now), blob := o.effect.row.blob)
      && (o.error.Some? <==> o.effect.row.status == Broken)
    ensures o.error != Some(ChannelSendException)
  {
    var v := Decide(entries, r.triggerName, run, true);
    if v.deleted then Outcome(Drop, v.raised)
    else Outcome(Store(r.(status := v.status, processed := Some(now), blob := codec.encode(ReadBlob(codec, r.blob)))),
                 v.raised)
  }

  /** Re-saving keeps the payload: with a codec whose decode inverts its
      encode, the stored row's data reads back as before. */
  lemma AttemptKeepsData(r: Row, entries: map<string, MessageClass>, codec: Codec, run: Channels.HandlerRun, now: int)
    requires RoundTrips(codec)
    ensures var o := Attempt(r, entries, codec, run, now);
      o.effect.Store? ==> ReadBlob(codec, o.effect.row.blob) == ReadBlob(codec, r.blob)
  {
    var d := ReadBlob(codec, r.blob);
    SavedDataReloads(codec, d);
  }

  /** The lock key of a notification: its id in decimal. */
  function TaskKey(id: int): (key: string)
    ensures '@' !in key && |key| > 0
  {
    DecimalHasNo(id, '@');
    Decimal(id)
  }

  /** The dispatcher's per-notification locks never collide with the dedup
      locks `trigger` takes (their keys always hold an '@'). */
  lemma TaskLocksAreNotTriggerLocks(id: int, name: string, user: int, content: Option<Content>)
    ensures LockId(TaskKey(id)) != LockId(Trigger.ScopeKey(name, user, content))
  {
    var k := Trigger.ScopeKey(name, user, content);
    assert k[|name|] == '@';
    assert '@' in k;
    assert LockId(k)[|Prefix|..] == k && LockId(TaskKey(id))[|Prefix|..] == TaskKey(id);
  }

  /** process_notification(id), given the cache keys and the row it finds:
      lock timeout, then a missing row, are errors; a row that is no longer
      CREATED is left alone; a CREATED row is sent. */
  ghost function TaskStep(keys: set<string>, id: int, stored: Option<Row>, entries: map<string, MessageClass>,
                          codec: Codec, run: Channels.HandlerRun, others: Contention, now: int): Outcome
  {
    if !Granted(keys, LockId(TaskKey(id)), DefaultTimeout, others) then
      Outcome(Keep, Some(LockTimeout(GiveUpWait(DefaultTimeout))))
    else if stored.None? then Outcome(Keep, Some(DoesNotExist))
    else if stored.value.status != Created then Outcome(Keep, None)
    else Attempt(stored.value, entries, codec, run, now)
  }

  /** The tasks for ids run one after the other; the first that raises ends the run. */
  ghost function Sweep(keys: set<string>, rows: map<int, Row>, ids: seq<int>, entries: map<string, MessageClass>,
                       codec: Codec, runs: int -> Channels.HandlerRun, others: Contention, now: int): Progress
    decreases |ids|
  {
    if ids == [] then Progress(rows, None)
    else
      var o := TaskStep(keys, ids[0], Lookup(rows, ids[0]), entries, codec, runs(ids[0]), others, now);
      var after := Apply(rows, ids[0], o.effect);
      if o.error.Some? then Progress(after, o.error)
      else Sweep(keys, after, ids[1..], entries, codec, runs, others, now)
  }

  /** process_notification. */
  method ProcessNotification(reg: Registry, db: Database, cache: Cache, codec: Codec, id: int,
                             run: Channels.HandlerRun, others: Contention, now: int)
    returns (err: Option<Error>)
    requires db.Valid()
    modifies db, cache
    ensures db.Valid() && db.nextId == old(db.nextId) && cache.keys == old(cache.keys)
    ensures var o := TaskStep(old(cache.keys), id, Lookup(old(db.rows), id), reg.entries, codec, run, others, now);
      err == o.error && db.rows == Apply(old(db.rows), id, o.effect)
  {
    var held := Acquire(cache, TaskKey(id), DefaultTimeout, others);
    if held.Failure? {
      return Some(held.error);
    }
    var loaded := Load(db, id);
    if loaded.Failure? {
      err := Some(loaded.error);
    } else {
      var n := loaded.value;
      if n.row.status == Created {
        err := n.Send(reg, db, codec, run, now);
      } else {
        err := None;
      }
    }
    Release(cache, TaskKey(id));
  }

  /** The dispatch loop: process_notification for each id in turn; the first
      task that raises ends it. */
  method ProcessEach(reg: Registry, db: Database, cache: Cache, codec: Codec, ids: seq<int>,
                     runs: int -> Channels.HandlerRun, others: Contention, now: int)
    returns (err: Option<Error>)
    requires db.Valid()
    modifies db, cache
    ensures db.Valid() && db.nextId == old(db.nextId) && cache.keys == old(cache.keys)
    ensures Sweep(old(cache.keys), old(db.rows), ids, reg.entries, codec, runs, others, now) == Progress(db.rows, err)
  {
    ghost var total := Sweep(cache.keys, db.rows, ids, reg.entries, codec, runs, others, now);
    var i := 0;
    while i < |ids|
      invariant 0 <= i <= |ids|
      invariant db.Valid() && db.nextId == old(db.nextId) && cache.keys == old(cache.keys)
      invariant Sweep(cache.keys, db.rows, ids[i..], reg.entries, codec, runs, others, now) == total
    {
      assert ids[i..][0] == ids[i] && ids[i..][1..] == ids[i + 1..];
      err := ProcessNotification(reg, db, cache, codec, ids[i], runs(ids[i]), others, now);
      if err.Some? {
        return;
      }
      i := i + 1;
    }
    err := None;
  }

  /** process_all_notifications: the due, unprocessed rows in scheduled order,
      each handed to process_notification; returns how many were queued. */
  method ProcessAllNotifications(reg: Registry, db: Database, cache: Cache, codec: Codec,
                                 runs: int -> Channels.HandlerRun, others: Contention, now: int)
    returns (r: Result<nat>)
    requires db.Valid()
    modifies db, cache
    ensures db.Valid() && db.nextId == old(db.nextId) && cache.keys == old(cache.keys)
    ensures var ids := DueIds(old(db.rows), now);
      var p := Sweep(old(cache.keys), old(db.rows), ids, reg.entries, codec, runs, others, now);
      && db.rows == p.rows
      && (p.error.None? ==> r == Success(|ids|))
      && (p.error.Some? ==> r == Failure(p.error.value))
  {
    var ids := DueIds(db.rows, now);
    var err := ProcessEach(reg, db, cache, codec, ids, runs, others, now);
    if err.Some? {
      r := Failure(err.value);
    } else {
      r := Success(|ids|);
    }
  }

  /** Each task of a run over distinct ids acts on its own row only: rows
      outside ids are untouched, and when no task raised, each row in ids is
      what its task alone makes of it. */
  lemma {:induction false} SweepPointwise(keys: set<string>, rows: map<int, Row>, ids: seq<int>,
                                          entries: map<string, MessageClass>, codec: Codec,
                                          runs: int -> Channels.HandlerRun, others: Contention, now: int)
    requires forall i, j :: 0 <= i < j < |ids| ==> ids[i] != ids[j]
    ensures var p := Sweep(keys, rows, ids, entries, codec, runs, others, now);
      && (forall k :: k !in ids ==> Lookup(p.rows, k) == Lookup(rows, k))
      && (p.error.None? ==> forall k :: k in ids ==>
            var o := TaskStep(keys, k, Lookup(rows, k), entries, codec, runs(k), others, now);
            o.error.None? && Lookup(p.rows, k) == ApplyTo(Lookup(rows, k), o.effect))
    decreases |ids|
  {
    if ids != [] {
      var h := ids[0];
      var o := TaskStep(keys, h, Lookup(rows, h), entries, codec, runs(h), others, now);
      var after := Apply(rows, h, o.effect);
      if o.error.None? {
        var t := ids[1..];
        assert forall i, j :: 0 <= i < j < |t| ==> t[i] != t[j] by {
          forall i, j | 0 <= i < j < |t| ensures t[i] != t[j] {
            assert t[i] == ids[i + 1] && t[j] == ids[j + 1];
          }
        }
        SweepPointwise(keys, after, t, entries, codec, runs, others, now);
        assert h !in t by {
          forall i | 0 <= i < |t| ensures t[i] != h {
            assert t[i] == ids[i + 1];
          }
        }
        forall k | k in t ensures k != h && Lookup(after, k) == Lookup(rows, k) { }
        assert forall k :: k in ids ==> k == h || k in t by {
          forall k | k in ids ensures k == h || k in t {
            var i :| 0 <= i < |ids| && ids[i] == k;
            if i > 0 { assert t[i - 1] == k; }
          }
        }
      }
    }
  }

  /** After a sweep in which no task raised, the next sweep selects exactly
      the rows that were due and unprocessed but no longer CREATED: every
      CREATED row got stamped processed or deleted, while a row cancelled with
      cancel() (which leaves datetime_processed unset) is selected again. */
  lemma NextSweepSelects(keys: set<string>, rows: map<int, Row>, entries: map<string, MessageClass>,
                         codec: Codec, runs: int -> Channels.HandlerRun, others: Contention, now: int)
    requires Sweep(keys, rows, DueIds(rows, now), entries, codec, runs, others, now).error.None?
    ensures var after := Sweep(keys, rows, DueIds(rows, now), entries, codec, runs, others, now).rows;
      forall k :: k in DueIds(after, now) <==>
        k in rows && rows[k].scheduled <= now && rows[k].processed.None? && rows[k].status != Created
  {
    var ids := DueIds(rows, now);
    var p := Sweep(keys, rows, ids, entries, codec, runs, others, now);
    SweepPointwise(keys, rows, ids, entries, codec, runs, others, now);
    forall k ensures k in DueIds(p.rows, now) <==>
        k in rows && rows[k].scheduled <= now && rows[k].processed.None? && rows[k].status != Created
    {
      if k in ids {
        var o := TaskStep(keys, k, Lookup(rows, k), entries, codec, runs(k), others, now);
        assert Lookup(p.rows, k) == ApplyTo(Lookup(rows, k), o.effect);
      } else {
        assert Lookup(p.rows, k) == Lookup(rows, k);
      }
    }
  }

  /** Processing a notification a second time does nothing: once its task
      got the lock and found the row, the row is gone or no longer CREATED
      (even when the attempt raised, leaving it BROKEN), so a later task for
      the same id, with its own cache state, contention and message-class
      behaviour, leaves the row as it is. It raises only a lock timeout, or
      DoesNotExist when the first attempt deleted the row. */
  lemma TaskStepOnce(keys1: set<string>, keys2: set<string>, id: int, stored: Option<Row>,
                     entries: map<string, MessageClass>, codec: Codec,
                     run1: Channels.HandlerRun, run2: Channels.HandlerRun,
                     others1: Contention, others2: Contention, now1: int, now2: int)
    requires Granted(keys1, LockId(TaskKey(id)), DefaultTimeout, others1) && stored.Some?
    ensures var once := ApplyTo(stored, TaskStep(keys1, id, stored, entries, codec, run1, others1, now1).effect);
      var again := TaskStep(keys2, id, once, entries, codec, run2, others2, now2);
      var granted := Granted(keys2, LockId(TaskKey(id)), DefaultTimeout, others2);
      && again.effect == Keep
      && (!granted ==> again.error == Some(LockTimeout(GiveUpWait(DefaultTimeout))))
      && (granted && once.None? ==> again.error == Some(DoesNotExist))
      && (granted && once.Some? ==> again.error.None?)
  {
  }

  /** Whether or not one of its tasks raised, a sweep leaves every row it
      leaves unprocessed exactly as it was: each task keeps its row, stamps
      it processed or deletes it. */
  lemma {:induction false} SweepLeavesPendingUntouched(keys: set<string>, rows: map<int, Row>, ids: seq<int>,
                                                       entries: map<string, MessageClass>, codec: Codec,
                                                       runs: int -> Channels.HandlerRun, others: Contention,
                                                       now: int)
    ensures var p := Sweep(keys, rows, ids, entries, codec, runs, others, now);
      forall k :: k in p.rows && p.rows[k].processed.None? ==> k in rows && p.rows[k] == rows[k]
    decreases |ids|
  {
    if ids != [] {
      var h := ids[0];
      var o := TaskStep(keys, h, Lookup(rows, h), entries, codec, runs(h), others, now);
      var after := Apply(rows, h, o.effect);
      assert forall k :: k in after && after[k].processed.None? ==> k in rows && after[k] == rows[k] by {
        forall k | k in after && after[k].processed.None? ensures k in rows && after[k] == rows[k] {
          assert Lookup(after, k) == Some(after[k]);
        }
      }
      if o.error.None? {
        SweepLeavesPendingUntouched(keys, after, ids[1..], entries, codec, runs, others, now);
      }
    }
  }

  /** After any sweep, also one a task ended by raising, the next sweep at the
      same time selects only rows the first one selected too and left as they
      were. */
  lemma NextSweepSelectsFewer(keys: set<string>, rows: map<int, Row>, entries: map<string, MessageClass>,
                              codec: Codec, runs: int -> Channels.HandlerRun, others: Contention, now: int)
    ensures var after := Sweep(keys, rows, DueIds(rows, now), entries, codec, runs, others, now).rows;
      forall k :: k in DueIds(after, now) ==> k in DueIds(rows, now) && after[k] == rows[k]
  {
    SweepLeavesPendingUntouched(keys, rows, DueIds(rows, now), entries, codec, runs, others, now);
  }

  /** A due CREATED notification whose message class raises while being built
      makes the sweep raise that error, is stored BROKEN and processed at now,
      and is not selected by the next sweep, which therefore returns 0. */
  lemma BrokenIsNotRetried(keys: set<string>, id: int, r: Row, entries: map<string, MessageClass>, codec: Codec,
                           runs: int -> Channels.HandlerRun, others: Contention, now: int, e: Error)
    requires r.status == Created && r.processed.None? && r.scheduled <= now
    requires Granted(keys, LockId(TaskKey(id)), DefaultTimeout, others)
    requires r.triggerName in entries && runs(id).init == Channels.Raises(e) && e != ChannelSendException
    ensures var p := Sweep(keys, map[id := r], DueIds(map[id := r], now), entries, codec, runs, others, now);
      && p.error == Some(e)
      && id in p.rows && p.rows[id].status == Broken && p.rows[id].processed == Some(now)
      && DueIds(p.rows, now) == []
  {
    var rows := map[id := r];
    var ids := DueIds(rows, now);
    assert id in ids;
    assert ids[0] == id;
    var after := Sweep(keys, rows, ids, entries, codec, runs, others, now).rows;
    NextSweepSelectsFewer(keys, rows, entries, codec, runs, others, now);
    assert forall k :: k !in DueIds(after, now);
  }

  /** A sweep, whether or not one of its tasks raised, leaves every row that
      is no longer CREATED exactly as it was. */
  lemma {:induction false} SweepKeepsSettled(keys: set<string>, rows: map<int, Row>, ids: seq<int>,
                                             entries: map<string, MessageClass>, codec: Codec,
                                             runs: int -> Channels.HandlerRun, others: Contention, now: int, k: int)
    requires k in rows && rows[k].status != Created
    ensures var p := Sweep(keys, rows, ids, entries, codec, runs, others, now);
      k in p.rows && p.rows[k] == rows[k]
    decreases |ids|
  {
    if ids != [] {
      var o := TaskStep(keys, ids[0], Lookup(rows, ids[0]), entries, codec, runs(ids[0]), others, now);
      var after := Apply(rows, ids[0], o.effect);
      assert Lookup(after, k) == Some(rows[k]);
      if o.error.None? {
        SweepKeepsSettled(keys, after, ids[1..], entries, codec, runs, others, now, k);
      }
    }
  }

  /** A row that is due and unprocessed but no longer CREATED (what cancel()
      leaves behind) is counted by a sweep, comes out of it unchanged, and is
      therefore due again for a sweep at the same or any later time; by
      induction on the sweeps, every later sweep counts it. */
  lemma CancelledStaysDue(keys: set<string>, rows: map<int, Row>, entries: map<string, MessageClass>,
                          codec: Codec, runs: int -> Channels.HandlerRun, others: Contention,
                          now: int, later: int, k: int)
    requires k in rows && rows[k].status != Created && rows[k].processed.None?
    requires rows[k].scheduled <= now <= later
    ensures k in DueIds(rows, now)
    ensures var after := Sweep(keys, rows, DueIds(rows, now), entries, codec, runs, others, now).rows;
      k in after && after[k] == rows[k] && k in DueIds(after, later)
  {
    SweepKeepsSettled(keys, rows, DueIds(rows, now), entries, codec, runs, others, now, k);
  }

  /** A sweep neither counts nor touches a row scheduled after now, or one
      already processed, whether or not one of its tasks raised. */
  lemma SweepSkipsUndue(keys: set<string>, rows: map<int, Row>, entries: map<string, MessageClass>,
                        codec: Codec, runs: int -> Channels.HandlerRun, others: Contention, now: int, k: int)
    requires k in rows && (rows[k].scheduled > now || rows[k].processed.Some?)
    ensures k !in DueIds(rows, now)
    ensures var p := Sweep(keys, rows, DueIds(rows, now), entries, codec, runs, others, now);
      k in p.rows && p.rows[k] == rows[k]
  {
    SweepPointwise(keys, rows, DueIds(rows, now), entries, codec, runs, others, now);
    assert Lookup(rows, k) == Some(rows[k]);
  }
}
