/** The two row selections the dispatcher and the retry command make:
    filter the store, then order by scheduled time (ties by id). */
module Queries {
  import opened Types

  /** A filter over notification rows. */
  datatype Query =
    | DueBy(now: int)                     // scheduled <= now, processed unset
    | FailedWithin(since: int, now: int)  // FAILED, since <= scheduled <= now

  predicate Selects(q: Query, r: Row) {
    match q
    case DueBy(now) => r.scheduled <= now && r.processed.None?
    case FailedWithin(since, now) => r.status == Failed && since <= r.scheduled <= now
  }

  /** Row a comes no later than row b in `order_by('datetime_scheduled')`. */
  predicate Precedes(rows: map<int, Row>, a: int, b: int)
    requires a in rows && b in rows
  {
    rows[a].scheduled < rows[b].scheduled || (rows[a].scheduled == rows[b].scheduled && a <= b)
  }

  /** The first row of pool in that order. */
  predicate IsFirst(rows: map<int, Row>, pool: set<int>, m: int)
    requires pool <= rows.Keys
  {
    m in pool && forall x :: x in pool ==> Precedes(rows, m, x)
  }

  lemma {:induction false} FirstExists(rows: map<int, Row>, pool: set<int>)
    requires pool <= rows.Keys && pool != {}
    ensures exists m :: IsFirst(rows, pool, m)
    decreases |pool|
  {
    if forall y :: y !in pool {
      assert false;
    }
    var x: int :| x in pool;
    if pool == {x} {
      assert IsFirst(rows, pool, x);
    } else {
      var rest := pool - {x};
      FirstExists(rows, rest);
      var m :| IsFirst(rows, rest, m);
      if Precedes(rows, m, x) {
        assert IsFirst(rows, pool, m);
      } else {
        forall y | y in pool
          ensures Precedes(rows, x, y)
        {
          if y != x {
            assert Precedes(rows, m, y);
          }
        }
        assert IsFirst(rows, pool, x);
      }
    }
  }

  /** The first row of the selection followed by the selection from the
      other rows is the selection from all rows. */
  lemma FirstThenRest(rows: map<int, Row>, q: Query, pool: set<int>, m: int, tail: seq<int>)
    requires pool == set id | id in rows && Selects(q, rows[id])
    requires IsFirst(rows, pool, m)
    requires forall i :: 0 <= i < |tail| ==> tail[i] in rows - {m} && Selects(q, (rows - {m})[tail[i]])
    requires forall id :: id in rows - {m} && Selects(q, (rows - {m})[id]) ==> id in tail
    requires forall i, j :: 0 <= i < j < |tail| ==> tail[i] != tail[j]
    requires forall i, j :: 0 <= i < j < |tail| ==> (rows - {m})[tail[i]].scheduled <= (rows - {m})[tail[j]].scheduled
    ensures var ids := [m] + tail;
      && (forall i :: 0 <= i < |ids| ==> ids[i] in rows && Selects(q, rows[ids[i]]))
      && (forall id :: id in rows && Selects(q, rows[id]) ==> id in ids)
      && (forall i, j :: 0 <= i < j < |ids| ==> ids[i] != ids[j])
      && (forall i, j :: 0 <= i < j < |ids| ==> rows[ids[i]].scheduled <= rows[ids[j]].scheduled)
  {
    var ids := [m] + tail;
    assert forall i :: 0 <= i < |tail| ==> tail[i] in pool && tail[i] != m;
    forall i, j | 0 <= i < j < |ids| ensures ids[i] != ids[j] && rows[ids[i]].scheduled <= rows[ids[j]].scheduled {
      assert ids[j] == tail[j - 1];
      if i > 0 {
        assert ids[i] == tail[i - 1];
      }
    }
    forall id | id in rows && Selects(q, rows[id]) ensures id in ids {
      if id != m {
        assert id in rows - {m};
      }
    }
  }

  /** The ids of the rows q selects, in scheduled order. */
  function Select(rows: map<int, Row>, q: Query): (ids: seq<int>)
    ensures forall i :: 0 <= i < |ids| ==> ids[i] in rows && Selects(q, rows[ids[i]])
    ensures forall id :: id in rows && Selects(q, rows[id]) ==> id in ids
    ensures forall i, j :: 0 <= i < j < |ids| ==> ids[i] != ids[j]
    ensures forall i, j :: 0 <= i < j < |ids| ==> rows[ids[i]].scheduled <= rows[ids[j]].scheduled
    decreases |rows|
  {
    var pool := set id | id in rows && Selects(q, rows[id]);
    assert forall id :: id in rows && Selects(q, rows[id]) ==> id in pool;
    if pool == {} then []
    else
      FirstExists(rows, pool);
      var m :| IsFirst(rows, pool, m);
      var rest := rows - {m};
      assert |rest| < |rows| by { assert m in rows; }
      var tail := Select(rest, q);
      FirstThenRest(rows, q, pool, m, tail);
      [m] + tail
  }

  /** process_all_notifications' selection. */
  function DueIds(rows: map<int, Row>, now: int): (ids: seq<int>)
    ensures forall i :: 0 <= i < |ids| ==> ids[i] in rows
    ensures forall id :: id in ids <==> id in rows && rows[id].scheduled <= now && rows[id].processed.None?
    ensures forall i, j :: 0 <= i < j < |ids| ==> ids[i] != ids[j]
    ensures forall i, j :: 0 <= i < j < |ids| ==> rows[ids[i]].scheduled <= rows[ids[j]].scheduled
  {
    Select(rows, DueBy(now))
  }

  /** retry_failed_notifications' selection. */
  function FailedIds(rows: map<int, Row>, since: int, now: int): (ids: seq<int>)
    ensures forall i :: 0 <= i < |ids| ==> ids[i] in rows
    ensures forall id :: id in ids <==> id in rows && rows[id].status == Failed && since <= rows[id].scheduled <= now
    ensures forall i, j :: 0 <= i < j < |ids| ==> ids[i] != ids[j]
    ensures forall i, j :: 0 <= i < j < |ids| ==> rows[ids[i]].scheduled <= rows[ids[j]].scheduled
  {
    Select(rows, FailedWithin(since, now))
  }
}
