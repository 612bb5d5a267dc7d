/** The `trigger` class method that the `message` decorator attaches: it
    takes the dedup lock unless the behaviour needs none, applies the class's
    dedup policy to the stored rows, and creates the notification or rejects
    it (silently, or with DuplicateNotification). */
module Trigger {
  import opened Types
  import opened Text
  import opened Lock
  import opened Registry
  import opened Models

  /** The arguments of Cls.trigger(target_user, trigger_user, datetime_scheduled,
      content, data, silent), users given by their ids. */
  datatype Request = Request(
    targetUser: int,
    triggerUser: Option<int>,
    scheduled: Option<int>,
    content: Option<Content>,
    data: Option<Data>,
    silent: bool)

  /** The key of a dedup scope: name@user, followed by +Type.id when content
      is part of the scope. */
  function ScopeKey(name: string, user: int, content: Option<Content>): string {
    name + "@" + Decimal(user) + ContentPart(content)
  }

  /** The lock key `trigger` builds for cls; a per-content behaviour given no
      content fails while reading the content's id. */
  function DedupKey(cls: MessageClass, user: int, content: Option<Content>): (r: Result<string>)
    ensures r.Failure? <==> cls.behavior.PerContent() && content.None?
    ensures r.Failure? ==> r.error == MissingContent
    ensures r.Success? && cls.behavior.PerContent() ==> r.value == ScopeKey(cls.triggerName, user, content)
    ensures r.Success? && !cls.behavior.PerContent() ==> r.value == ScopeKey(cls.triggerName, user, None)
  {
    if !cls.behavior.PerContent() then Success(ScopeKey(cls.triggerName, user, None))
    else if content.None? then Failure(MissingContent)
    else Success(ScopeKey(cls.triggerName, user, content))
  }

  /** Two ways of writing one string as a head free of sep followed by a
      tail that is empty or starts with sep are the same way. */
  lemma SplitBeforeSep(a1: string, b1: string, a2: string, b2: string, sep: char)
    requires sep !in a1 && sep !in a2
    requires b1 == [] || b1[0] == sep
    requires b2 == [] || b2[0] == sep
    requires a1 + b1 == a2 + b2
    ensures a1 == a2 && b1 == b2
  {
    var s := a1 + b1;
    assert forall i :: 0 <= i < |a1| ==> s[i] == a1[i];
    assert forall i :: 0 <= i < |a2| ==> s[i] == a2[i];
    assert |a1| < |s| ==> s[|a1|] == b1[0];
    assert |a2| < |s| ==> s[|a2|] == b2[0];
    assert |a1| == |a2|;
    assert a1 == s[..|a1|] && a2 == s[..|a2|];
    assert b1 == s[|a1|..] && b2 == s[|a2|..];
  }

  /** What follows name@user in a scope key. */
  function ContentPart(content: Option<Content>): string {
    match content
    case None => ""
    case Some(c) => "+" + c.typeTag + "." + Decimal(c.id)
  }

  /** The part after name@user determines the content. */
  lemma ContentPartInjective(c1: Option<Content>, c2: Option<Content>)
    requires c1.Some? ==> '.' !in c1.value.typeTag
    requires c2.Some? ==> '.' !in c2.value.typeTag
    requires ContentPart(c1) == ContentPart(c2)
    ensures c1 == c2
  {
    assert c1.None? <==> ContentPart(c1) == [];
    assert c2.None? <==> ContentPart(c2) == [];
    if c1.Some? {
      var x1, x2 := c1.value, c2.value;
      var e1, e2 := Decimal(x1.id), Decimal(x2.id);
      assert ContentPart(c1)[1..] == x1.typeTag + ("." + e1);
      assert ContentPart(c2)[1..] == x2.typeTag + ("." + e2);
      SplitBeforeSep(x1.typeTag, "." + e1, x2.typeTag, "." + e2, '.');
      assert e1 == ("." + e1)[1..] && e2 == ("." + e2)[1..];
      DecimalInjective(x1.id, x2.id);
    }
  }

  /** A string written as head, sep, then two more parts, with sep absent
      from the head: the head and the rest are determined. */
  lemma SplitAtSep(n1: string, d1: string, r1: string, n2: string, d2: string, r2: string, sep: char)
    requires sep !in n1 && sep !in n2
    requires n1 + [sep] + d1 + r1 == n2 + [sep] + d2 + r2
    ensures n1 == n2 && d1 + r1 == d2 + r2
  {
    var t1, t2 := d1 + r1, d2 + r2;
    assert n1 + [sep] + d1 + r1 == n1 + ([sep] + t1);
    assert n2 + [sep] + d2 + r2 == n2 + ([sep] + t2);
    SplitBeforeSep(n1, [sep] + t1, n2, [sep] + t2, sep);
    assert t1 == ([sep] + t1)[1..] && t2 == ([sep] + t2)[1..];
  }

  /** Distinct dedup scopes lock distinct keys, as long as trigger names hold
      no '@' and content type names no '.' (Python class names hold none). */
  lemma ScopeKeyInjective(n1: string, u1: int, c1: Option<Content>, n2: string, u2: int, c2: Option<Content>)
    requires '@' !in n1 && '@' !in n2
    requires c1.Some? ==> '.' !in c1.value.typeTag
    requires c2.Some? ==> '.' !in c2.value.typeTag
    requires ScopeKey(n1, u1, c1) == ScopeKey(n2, u2, c2)
    ensures n1 == n2 && u1 == u2 && c1 == c2
  {
    SplitAtSep(n1, Decimal(u1), ContentPart(c1), n2, Decimal(u2), ContentPart(c2), '@');
    DecimalHasNo(u1, '+');
    DecimalHasNo(u2, '+');
    SplitBeforeSep(Decimal(u1), ContentPart(c1), Decimal(u2), ContentPart(c2), '+');
    DecimalInjective(u1, u2);
    ContentPartInjective(c1, c2);
  }

  /** A stored row belongs to the (trigger name, target user) scope. */
  predicate InScope(r: Row, name: string, user: int) {
    r.triggerName == name && r.targetUser == user
  }

  /** The dedup policy of a behaviour, as the queries in `_trigger_within_lock`
      evaluate it over the stored rows: Success(true) means "duplicate". */
  function Dedup(b: Behavior, rows: map<int, Row>, name: string, user: int, content: Option<Content>): (r: Result<bool>)
    ensures r.Failure? <==> b.PerContent() && content.None?
    ensures r.Failure? ==> r.error == MissingContent
    ensures b.LockFree() ==> r == Success(false)
    ensures r == Success(true) ==> exists id :: id in rows && InScope(rows[id], name, user)
  {
    match b
    case SendOnce =>
      Success(exists id | id in rows :: InScope(rows[id], name, user))
    case SendOncePerContent =>
      if content.None? then Failure(MissingContent)
      else Success(exists id | id in rows :: InScope(rows[id], name, user) && rows[id].content == content)
    case TriggerOnce =>
      Success(exists id | id in rows :: InScope(rows[id], name, user) && rows[id].processed.None?)
    case TriggerOncePerContent =>
      if content.None? then Failure(MissingContent)
      else Success(exists id | id in rows :: InScope(rows[id], name, user) && rows[id].processed.None?
                                                && rows[id].content == content)
    case Default => Success(false)
    case DeleteAfterProcessing => Success(false)
  }

  /** What a rejected trigger returns: None when silent, else DuplicateNotification. */
  function Rejection<T>(silent: bool): (r: Result<Option<T>>)
    ensures silent ==> r == Success(None)
    ensures !silent ==> r == Failure(DuplicateNotification)
  {
    if silent then Success(None) else Failure(DuplicateNotification)
  }

  /** The row an accepted trigger stores: status CREATED, unprocessed,
      scheduled when asked or now, the given content, and the given data
      (or the empty mapping) encoded. */
  function NewRow(cls: MessageClass, req: Request, codec: Codec, now: int): (r: Row)
    ensures r.triggerName == cls.triggerName && r.targetUser == req.targetUser
    ensures r.status == Created && r.processed == None && r.content == req.content
    ensures r.scheduled == (if req.scheduled.Some? then req.scheduled.value else now)
    ensures r.blob == codec.encode(if req.data.Some? then req.data.value else map[])
  {
    Row(cls.triggerName, req.targetUser, req.triggerUser, req.content,
        codec.encode(if req.data.Some? then req.data.value else map[]),
        if req.scheduled.Some? then req.scheduled.value else now, None, Created)
  }

  /** The store before (rows0, next0) and after (rows1, next1) one policy
      evaluation for cls, and its result. */
  ghost predicate Admitted(cls: MessageClass, req: Request, codec: Codec, now: int,
                           rows0: map<int, Row>, next0: int, rows1: map<int, Row>, next1: int,
                           res: Result<Option<Notification>>)
    reads if res.Success? && res.value.Some? then {res.value.value} else {}
  {
    match Dedup(cls.behavior, rows0, cls.triggerName, req.targetUser, req.content)
    case Failure(e) => res == Failure(e) && rows1 == rows0 && next1 == next0
    case Success(true) => res == Rejection(req.silent) && rows1 == rows0 && next1 == next0
    case Success(false) =>
      && res.Success? && res.value.Some?
      && res.value.value.pk == Some(next0) && res.value.value.row == NewRow(cls, req, codec, now)
      && rows1 == rows0[next0 := NewRow(cls, req, codec, now)] && next1 == next0 + 1
  }

  /** _trigger_within_lock. */
  method WithinLock(cls: MessageClass, db: Database, codec: Codec, req: Request, now: int)
    returns (res: Result<Option<Notification>>)
    requires db.Valid()
    modifies db
    ensures db.Valid()
    ensures res.Success? && res.value.Some? ==> fresh(res.value.value)
    ensures Admitted(cls, req, codec, now, old(db.rows), old(db.nextId), db.rows, db.nextId, res)
  {
    var duplicate := Dedup(cls.behavior, db.rows, cls.triggerName, req.targetUser, req.content);
    if duplicate.Failure? {
      return Failure(duplicate.error);
    }
    if duplicate.value {
      return Rejection(req.silent);
    }
    var scheduled := if req.scheduled.None? then now else req.scheduled.value;
    var fields := Row(cls.triggerName, req.targetUser, req.triggerUser, req.content, "", scheduled, None, Created);
    var n := Create(db, codec, fields, req.data);
    res := Success(Some(n));
  }

  /** Cls.trigger(...): lock-free behaviours go straight to the policy; the
      others first build the dedup key, then evaluate under the lock on it
      (default timeout), which is released on every exit. */
  method Trigger(cls: MessageClass, db: Database, cache: Cache, codec: Codec, req: Request,
                 others: Contention, now: int)
    returns (res: Result<Option<Notification>>)
    requires db.Valid()
    modifies db, cache
    ensures db.Valid() && cache.keys == old(cache.keys)
    ensures res.Success? && res.value.Some? ==> fresh(res.value.value)
    ensures cls.behavior.LockFree() ==>
      Admitted(cls, req, codec, now, old(db.rows), old(db.nextId), db.rows, db.nextId, res)
    ensures !cls.behavior.LockFree() ==>
      var key := DedupKey(cls, req.targetUser, req.content);
      if key.Failure? then
        res == Failure(MissingContent) && db.rows == old(db.rows) && db.nextId == old(db.nextId)
      else if !Granted(old(cache.keys), LockId(key.value), DefaultTimeout, others) then
        res == Failure(LockTimeout(GiveUpWait(DefaultTimeout))) && db.rows == old(db.rows) && db.nextId == old(db.nextId)
      else
        Admitted(cls, req, codec, now, old(db.rows), old(db.nextId), db.rows, db.nextId, res)
  {
    if cls.behavior.LockFree() {
      res := WithinLock(cls, db, codec, req, now);
      return;
    }
    var key := DedupKey(cls, req.targetUser, req.content);
    if key.Failure? {
      return Failure(key.error);
    }
    var held := Acquire(cache, key.value, DefaultTimeout, others);
    if held.Failure? {
      return Failure(held.error);
    }
    res := WithinLock(cls, db, codec, req, now);
    Release(cache, key.value);
  }

  /** SEND_ONCE rejects as soon as one row of the scope exists, whatever its
      status and processed time have become since. */
  lemma SendOnceIgnoresStatus(rows: map<int, Row>, id: int, name: string, user: int,
                              content: Option<Content>, s: Status, p: Option<int>)
    requires id in rows && InScope(rows[id], name, user)
    ensures Dedup(SendOnce, rows[id := rows[id].(status := s, processed := p)], name, user, content) == Success(true)
  {
    var after := rows[id := rows[id].(status := s, processed := p)];
    assert id in after && InScope(after[id], name, user);
  }

  /** SEND_ONCE_PER_CONTENT: after storing a row for content c1, the same
      content is rejected, while the answer for any other content is what it
      was before. */
  lemma SendOncePerContentScopes(rows: map<int, Row>, id: int, r: Row, c1: Content, c2: Content)
    requires id !in rows && r.content == Some(c1)
    ensures Dedup(SendOncePerContent, rows[id := r], r.triggerName, r.targetUser, Some(c1)) == Success(true)
    ensures c2 != c1 ==>
      Dedup(SendOncePerContent, rows[id := r], r.triggerName, r.targetUser, Some(c2))
      == Dedup(SendOncePerContent, rows, r.triggerName, r.targetUser, Some(c2))
  {
    var after := rows[id := r];
    assert id in after && InScope(after[id], r.triggerName, r.targetUser) && after[id].content == Some(c1);
    if c2 != c1 {
      assert forall k :: k in after && after[k].content == Some(c2) ==> k in rows && after[k] == rows[k];
    }
  }

  /** The rows a TRIGGER_ONCE policy compares a new trigger with: the
      (trigger name, target user) scope, narrowed to the same content under
      TRIGGER_ONCE_PER_CONTENT. */
  predicate Compared(b: Behavior, r: Row, name: string, user: int, content: Option<Content>) {
    InScope(r, name, user) && (b == TriggerOncePerContent ==> r.content == content)
  }

  /** TRIGGER_ONCE and TRIGGER_ONCE_PER_CONTENT: while a compared row is
      unprocessed, a new trigger is a duplicate, whatever the other rows are.
      Under TRIGGER_ONCE the new trigger's content plays no part (it may be
      absent). */
  lemma TriggerOnceRejectsPending(b: Behavior, rows: map<int, Row>, id: int, content: Option<Content>)
    requires b == TriggerOnce || b == TriggerOncePerContent
    requires id in rows && rows[id].processed.None?
    requires b == TriggerOncePerContent ==> content.Some? && rows[id].content == content
    ensures Dedup(b, rows, rows[id].triggerName, rows[id].targetUser, content) == Success(true)
  {
    assert Compared(b, rows[id], rows[id].triggerName, rows[id].targetUser, content);
  }

  /** TRIGGER_ONCE and TRIGGER_ONCE_PER_CONTENT: once the pending row is
      stamped processed, the next trigger is accepted provided no other
      compared row is pending; under TRIGGER_ONCE_PER_CONTENT pending rows of
      another content do not count. */
  lemma TriggerOnceReopens(b: Behavior, rows: map<int, Row>, id: int, content: Option<Content>, t: int)
    requires b == TriggerOnce || b == TriggerOncePerContent
    requires id in rows
    requires b == TriggerOncePerContent ==> content.Some?
    requires forall k :: k in rows && k != id && Compared(b, rows[k], rows[id].triggerName, rows[id].targetUser, content)
                ==> rows[k].processed.Some?
    ensures Dedup(b, rows[id := rows[id].(processed := Some(t))], rows[id].triggerName, rows[id].targetUser,
                  content) == Success(false)
  {
    var r := rows[id];
    var after := rows[id := r.(processed := Some(t))];
    assert forall k :: k in after ==>
      after[k].processed.Some? || !Compared(b, after[k], r.triggerName, r.targetUser, content);
  }

  /** A lock-free behaviour accepts every trigger: two calls for the same user
      store two rows under two different ids. */
  lemma LockFreeAcceptsTwice(cls: MessageClass, req1: Request, req2: Request, codec: Codec, now: int,
                             rows0: map<int, Row>, next0: int, rows1: map<int, Row>, next1: int,
                             rows2: map<int, Row>, next2: int,
                             res1: Result<Option<Notification>>, res2: Result<Option<Notification>>)
    requires cls.behavior.LockFree()
    requires forall k :: k in rows0 ==> k < next0
    requires Admitted(cls, req1, codec, now, rows0, next0, rows1, next1, res1)
    requires Admitted(cls, req2, codec, now, rows1, next1, rows2, next2, res2)
    ensures res1.Success? && res1.value.Some? && res2.Success? && res2.value.Some?
    ensures res1.value.value.pk != res2.value.value.pk
    ensures next0 in rows2 && next0 + 1 in rows2 && |rows2.Keys - rows0.Keys| == 2
  {
    assert rows2.Keys - rows0.Keys == {next0, next0 + 1};
  }
}
