/** The Notification model: the row store, a notification instance with its
    lazily decoded and cached data, and the delivery state machine `send`
    with `cancel` and `save`. */
module Models {
  import opened Types
  import opened Registry
  import Channels

  /** The notification table: rows keyed by their id, ids handed out in order from 1. */
  class Database {
    var rows: map<int, Row>
    var nextId: int

    ghost predicate Valid()
      reads this
    {
      nextId >= 1 && forall id :: id in rows ==> 1 <= id < nextId
    }

    constructor ()
      ensures Valid() && rows == map[] && nextId == 1
    {
      rows, nextId := map[], 1;
    }

    /** INSERT: the row gets the next id, which no stored row has. */
    method Insert(r: Row) returns (id: int)
      requires Valid()
      modifies this
      ensures Valid()
      ensures id == old(nextId) && id !in old(rows) && id >= 1
      ensures rows == old(rows)[id := r] && nextId == old(nextId) + 1
    {
      id := nextId;
      rows, nextId := rows[id := r], nextId + 1;
    }

    /** UPDATE (or INSERT under the given id) of an existing instance. */
    method Put(id: int, r: Row)
      requires Valid() && 1 <= id < nextId
      modifies this
      ensures Valid()
      ensures rows == old(rows)[id := r] && nextId == old(nextId)
    {
      rows := rows[id := r];
    }

    /** DELETE by id. */
    method Remove(id: int)
      requires Valid()
      modifies this
      ensures Valid()
      ensures rows == old(rows) - {id} && nextId == old(nextId)
    {
      rows := rows - {id};
    }
  }

  /** The outcome of one delivery attempt: the status it leaves, whether the
      row is deleted, and the exception `send` lets escape, if any. */
  datatype Verdict = Verdict(status: Status, deleted: bool, raised: Option<Error>)

  /** The two handlers of `send`: ChannelSendException gives FAILED and is
      swallowed; any other exception gives BROKEN and is re-raised. */
  function Caught(e: Error): (v: Verdict)
    ensures !v.deleted
    ensures e == ChannelSendException ==> v == Verdict(Failed, false, None)
    ensures e != ChannelSendException ==> v == Verdict(Broken, false, Some(e))
  {
    if e == ChannelSendException then Verdict(Failed, false, None) else Verdict(Broken, false, Some(e))
  }

  /** After CANCELLED or SUCCESSFULLY_SENT: a DELETE_AFTER_PROCESSING message
      deletes the row, which fails for an instance without an id. */
  function Finish(s: Status, b: Behavior, hasKey: bool): (v: Verdict)
    ensures b != DeleteAfterProcessing ==> v == Verdict(s, false, None)
    ensures b == DeleteAfterProcessing && hasKey ==> v == Verdict(s, true, None)
    ensures b == DeleteAfterProcessing && !hasKey ==> v == Verdict(Broken, false, Some(DeleteWithoutKey))
  {
    if b != DeleteAfterProcessing then Verdict(s, false, None)
    else if hasKey then Verdict(s, true, None)
    else Verdict(Broken, false, Some(DeleteWithoutKey))
  }

  /** The classification `send` makes of one attempt for a notification with
      trigger name `name` (hasKey: whether the instance has an id). */
  function Decide(entries: map<string, MessageClass>, name: string, run: Channels.HandlerRun, hasKey: bool): (v: Verdict)
    ensures v.status != Created
    ensures v.raised.Some? <==> v.status == Broken
    ensures v.raised != Some(ChannelSendException)
    ensures v.deleted ==> hasKey && v.raised.None? && (v.status == Cancelled || v.status == SuccessfullySent)
    ensures v.deleted ==> name in entries && entries[name].behavior == DeleteAfterProcessing
  {
    var ch := Channels.Open(entries, name, run);
    if ch.Failure? then Caught(ch.error)
    else
      var valid := Channels.CheckValidity(ch.value);
      if valid.Failure? then Caught(valid.error)
      else if !valid.value then Finish(Cancelled, ch.value.message.cls.behavior, hasKey)
      else
        var sent := Channels.Send(ch.value);
        if sent.Failure? then Caught(sent.error)
        else Finish(SuccessfullySent, ch.value.message.cls.behavior, hasKey)
  }

  /** The registered class under name builds and answers `valid` (True when it
      defines no check_validity). */
  predicate Reaches(entries: map<string, MessageClass>, name: string, run: Channels.HandlerRun, valid: bool) {
    && name in entries
    && run.init.Returns?
    && Channels.CheckValidity(Channels.Channel(name, Channels.Message(entries[name], run))) == Success(valid)
  }

  /** An invalid notification is CANCELLED and the message's send is never
      called: the outcome does not depend on what send would do. */
  lemma InvalidIsCancelledUnsent(entries: map<string, MessageClass>, name: string, run: Channels.HandlerRun,
                                 hasKey: bool, other: Channels.Call<()>)
    requires Reaches(entries, name, run, false)
    ensures Decide(entries, name, run, hasKey) == Finish(Cancelled, entries[name].behavior, hasKey)
    ensures Decide(entries, name, run.(send := other), hasKey) == Decide(entries, name, run, hasKey)
  {
  }

  /** A send that returns normally gives SUCCESSFULLY_SENT. */
  lemma DeliveredIsSent(entries: map<string, MessageClass>, name: string, run: Channels.HandlerRun, hasKey: bool)
    requires Reaches(entries, name, run, true) && run.send.Returns?
    ensures Decide(entries, name, run, hasKey) == Finish(SuccessfullySent, entries[name].behavior, hasKey)
    ensures entries[name].behavior != DeleteAfterProcessing ==>
      Decide(entries, name, run, hasKey) == Verdict(SuccessfullySent, false, None)
  {
  }

  /** Whatever the message's send raises, the notification is FAILED, the row
      is kept and nothing propagates. */
  lemma DeliveryErrorIsFailed(entries: map<string, MessageClass>, name: string, run: Channels.HandlerRun, hasKey: bool)
    requires Reaches(entries, name, run, true) && run.send.Raises?
    ensures Decide(entries, name, run, hasKey) == Verdict(Failed, false, None)
  {
  }

  /** An unknown trigger or a failing message constructor or check_validity
      gives BROKEN and the error is re-raised (unless it is itself a
      ChannelSendException, which the FAILED handler catches first). */
  lemma OtherErrorsAreBroken(entries: map<string, MessageClass>, name: string, run: Channels.HandlerRun, hasKey: bool)
    ensures name !in entries ==>
      Decide(entries, name, run, hasKey) == Verdict(Broken, false, Some(UnknownTriggerException))
    ensures name in entries && run.init.Raises? ==>
      Decide(entries, name, run, hasKey) == Caught(run.init.error)
    ensures name in entries && run.init.Returns? && run.checkValidity.Some? && run.checkValidity.value.Raises? ==>
      Decide(entries, name, run, hasKey) == Caught(run.checkValidity.value.error)
  {
  }

  class Notification {
    /** The primary key; None for an instance not (or no longer) stored. */
    var pk: Option<int>
    /** The instance's field values, as the store would persist them. */
    var row: Row
    /** `_data`: the decoded payload once read or assigned. */
    var cache: Option<Data>

    /** An instance loaded from the store. */
    constructor FromRow(id: int, r: Row)
      ensures pk == Some(id) && row == r && cache == None
    {
      pk, row, cache := Some(id), r, None;
    }

    /** An instance not yet stored. */
    constructor Unsaved(r: Row)
      ensures pk == None && row == r && cache == None
    {
      pk, row, cache := None, r, None;
    }

    /** The instance's id, if any, is one the store has handed out. */
    ghost predicate KeyedIn(db: Database)
      reads this, db
    {
      pk.Some? ==> 1 <= pk.value < db.nextId
    }

    /** What reading `data` gives now: the cached value, or the decoded blob. */
    function CurrentData(codec: Codec): Data
      reads this
    {
      if cache.Some? then cache.value else ReadBlob(codec, row.blob)
    }

    /** The `data` getter: decodes the blob on first read and caches it. */
    method GetData(codec: Codec) returns (d: Data)
      modifies this`cache
      ensures d == old(CurrentData(codec)) && cache == Some(d)
      ensures old(cache).Some? ==> d == old(cache).value
      ensures old(cache).None? ==> d == ReadBlob(codec, row.blob)
    {
      if cache.None? {
        cache := Some(ReadBlob(codec, row.blob));
      }
      d := cache.value;
    }

    /** The `data` setter. */
    method SetData(d: Data)
      modifies this`cache
      ensures cache == Some(d)
    {
      cache := Some(d);
    }

    /** save: re-encode the current data into the blob, then UPDATE the row
        under the instance's id, or INSERT it under a new id when it has none. */
    method Save(db: Database, codec: Codec)
      requires db.Valid() && KeyedIn(db)
      modifies this, db
      ensures db.Valid() && KeyedIn(db) && pk.Some?
      ensures cache == Some(old(CurrentData(codec)))
      ensures row == old(row).(blob := codec.encode(old(CurrentData(codec))))
      ensures old(pk).Some? ==> pk == old(pk) && db.nextId == old(db.nextId)
      ensures old(pk).None? ==> pk == Some(old(db.nextId)) && db.nextId == old(db.nextId) + 1
      ensures db.rows == old(db.rows)[pk.value := row]
    {
      var d := GetData(codec);
      row := row.(blob := codec.encode(d));
      if pk.Some? {
        db.Put(pk.value, row);
      } else {
        var id := db.Insert(row);
        pk := Some(id);
      }
    }

    /** cancel: CANCELLED and saved; datetime_processed is left as it was and
        `data` reads as before. */
    method Cancel(db: Database, codec: Codec)
      requires db.Valid() && KeyedIn(db)
      modifies this, db
      ensures db.Valid() && KeyedIn(db) && pk.Some?
      ensures row == old(row).(status := Cancelled, blob := codec.encode(old(CurrentData(codec))))
      ensures cache == Some(old(CurrentData(codec)))
      ensures old(pk).Some? ==> pk == old(pk) && db.nextId == old(db.nextId)
      ensures old(pk).None? ==> pk == Some(old(db.nextId)) && db.nextId == old(db.nextId) + 1
      ensures db.rows == old(db.rows)[pk.value := row]
    {
      row := row.(status := Cancelled);
      Save(db, codec);
    }

    /** send: deliver through the channel of the registered class and record
        the outcome. A row that still has an id afterwards is stamped
        processed at `now` and saved whatever the outcome; a clean
        DELETE_AFTER_PROCESSING attempt deletes the row instead; `data` reads
        as before in every case. Returns the exception that escapes, if any. */
    method Send(reg: Registry, db: Database, codec: Codec, run: Channels.HandlerRun, now: int)
      returns (raised: Option<Error>)
      requires db.Valid() && KeyedIn(db)
      modifies this, db
      ensures db.Valid() && KeyedIn(db)
      ensures CurrentData(codec) == old(CurrentData(codec))
      ensures var v := Decide(reg.entries, old(row).triggerName, run, old(pk).Some?);
        && raised == v.raised
        && (v.deleted ==>
              && old(pk).Some? && pk.None?
              && row == old(row).(status := v.status)
              && db.rows == old(db.rows) - {old(pk).value} && db.nextId == old(db.nextId))
        && (!v.deleted && old(pk).Some? ==>
              && pk == old(pk)
              && row == old(row).(status := v.status, processed := Some(now),
                                  blob := codec.encode(old(CurrentData(codec))))
              && db.rows == old(db.rows)[pk.value := row] && db.nextId == old(db.nextId))
        && (!v.deleted && old(pk).None? ==>
              && pk.None? && row == old(row).(status := v.status)
              && db.rows == old(db.rows) && db.nextId == old(db.nextId))
    {
      ghost var v := Decide(reg.entries, row.triggerName, run, pk.Some?);
      var outcome: Verdict;
      var ch := Channels.Open(reg.entries, row.triggerName, run);
      if ch.Failure? {
        outcome := Caught(ch.error);
      } else {
        var valid := Channels.CheckValidity(ch.value);
        if valid.Failure? {
          outcome := Caught(valid.error);
        } else {
          var delivered := true;
          if !valid.value {
            row := row.(status := Cancelled);
          } else {
            var sent := Channels.Send(ch.value);
            if sent.Success? {
              row := row.(status := SuccessfullySent);
            } else {
              delivered := false;
              outcome := Caught(sent.error);
            }
          }
          if delivered {
            if ch.value.message.cls.behavior == DeleteAfterProcessing {
              if pk.Some? {
                db.Remove(pk.value);
                pk := None;
                outcome := Verdict(row.status, true, None);
              } else {
                outcome := Caught(DeleteWithoutKey);
              }
            } else {
              outcome := Verdict(row.status, false, None);
            }
          }
        }
      }
      assert outcome == v;
      // the except clauses
      row := row.(status := outcome.status);
      // the finally clause
      if pk.Some? {
        row := row.(processed := Some(now));
        Save(db, codec);
      }
      raised := outcome.raised;
    }
  }

  /** Notification.objects.get(pk=id). */
  method Load(db: Database, id: int) returns (r: Result<Notification>)
    ensures id in db.rows <==> r.Success?
    ensures r.Success? ==> fresh(r.value) && r.value.pk == Some(id) && r.value.row == db.rows[id] && r.value.cache == None
    ensures r.Failure? ==> r.error == DoesNotExist
  {
    if id in db.rows {
      var n := new Notification.FromRow(id, db.rows[id]);
      r := Success(n);
    } else {
      r := Failure(DoesNotExist);
    }
  }

  /** Notification.objects.create(**fields): an unsaved instance, its data
      assigned when given, then saved (which encodes `{}` when none was given). */
  method Create(db: Database, codec: Codec, r: Row, data: Option<Data>) returns (n: Notification)
    requires db.Valid()
    modifies db
    ensures db.Valid() && fresh(n) && n.KeyedIn(db)
    ensures var d := if data.Some? then data.value else ReadBlob(codec, r.blob);
      && n.pk == Some(old(db.nextId)) && n.row == r.(blob := codec.encode(d)) && n.cache == Some(d)
      && db.rows == old(db.rows)[old(db.nextId) := n.row] && db.nextId == old(db.nextId) + 1
  {
    n := new Notification.Unsaved(r);
    if data.Some? {
      n.SetData(data.value);
    }
    n.Save(db, codec);
  }

  /** A row's data read after a save and a reload is the data that was saved. */
  lemma SavedDataReloads(codec: Codec, d: Data)
    requires RoundTrips(codec)
    ensures ReadBlob(codec, codec.encode(d)) == d
  {
  }
}
