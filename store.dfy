/**
 * The authoritative store: the session table reached through the PDO handle.
 * A row is keyed by the session id and holds the payload and the time of the last write.
 */
module Store {
  import opened Php

  datatype Row = Row(data: string, timestamp: int)

  /** The table: session id to row. */
  type Table = map<string, Row>

  /** The table after `REPLACE INTO ... VALUES(id, data, timestamp)`: the whole row is replaced. */
  function Upserted(t: Table, id: string, data: string, timestamp: int): (r: Table)
    ensures r.Keys == t.Keys + {id}
    ensures r[id] == Row(data, timestamp)
    ensures forall k :: k in t && k != id ==> r[k] == t[k]
  {
    t[id := Row(data, timestamp)]
  }

  /** The table after `DELETE ... WHERE id = ?`. */
  function Without(t: Table, id: string): (r: Table)
    ensures r.Keys == t.Keys - {id}
    ensures forall k :: k in r ==> r[k] == t[k]
  {
    t - {id}
  }

  /** The ids of the rows that `DELETE ... WHERE timestamp < cutoff` matches. */
  function Expired(t: Table, cutoff: int): (s: set<string>)
    ensures forall k :: k in s <==> k in t && t[k].timestamp < cutoff
  {
    set k | k in t && t[k].timestamp < cutoff
  }

  /** The table after `DELETE ... WHERE timestamp < cutoff`: exactly the rows not older than `cutoff` stay, unchanged. */
  function Swept(t: Table, cutoff: int): (r: Table)
    ensures forall k :: k in r <==> k in t && cutoff <= t[k].timestamp
    ensures forall k :: k in r ==> r[k] == t[k]
  {
    map k | k in t && cutoff <= t[k].timestamp :: t[k]
  }

  /**
   * The table after `UPDATE ... SET timestamp = now WHERE id = ?`. A NULL key (None)
   * compares unknown with every id in SQL, so it matches no row.
   */
  function Touched(t: Table, id: Option<string>, now: int): (r: Table)
    ensures r.Keys == t.Keys
    ensures forall k :: k in t && id == Some(k) ==> r[k] == Row(t[k].data, now)
    ensures forall k :: k in t && id != Some(k) ==> r[k] == t[k]
  {
    if id.Some? && id.value in t then t[id.value := Row(t[id.value].data, now)] else t
  }

  /** A sweep removes a row exactly when one is older than the cutoff. */
  lemma {:induction false} ExpiredNonEmpty(t: Table, cutoff: int)
    ensures |Expired(t, cutoff)| > 0 <==> exists k :: k in t && t[k].timestamp < cutoff
  {
    var s := Expired(t, cutoff);
    if |s| > 0 {
      var k :| k in s;
      assert k in t && t[k].timestamp < cutoff;
    } else {
      assert s == {};
      forall k | k in t ensures cutoff <= t[k].timestamp {
        assert k !in s;
      }
    }
  }

  /** The rows that a sweep removes and the rows that it keeps partition the table. */
  lemma {:induction false} SweptCount(t: Table, cutoff: int)
    ensures |Swept(t, cutoff)| + |Expired(t, cutoff)| == |t|
  {
    var kept, gone := Swept(t, cutoff).Keys, Expired(t, cutoff);
    assert kept + gone == t.Keys;
    assert kept !! gone;
    assert |kept + gone| == |kept| + |gone|;
    assert |Swept(t, cutoff)| == |kept|;
    assert |t| == |t.Keys|;
  }

  /**
   * The database behind the PDO handle. Each method is one prepared statement;
   * `fail` says that preparing or executing it throws a PDOException, which leaves the table as it was.
   */
  class Database {
    var rows: Table

    constructor (initial: Table)
      ensures rows == initial
    {
      rows := initial;
    }

    /** `SELECT data ... WHERE id = ?` followed by a fetch: the payload, or None when no row matches. */
    method SelectData(id: string, fail: bool) returns (r: Reply<Option<string>>)
      ensures fail ==> r == Thrown
      ensures !fail ==> r.Ok? && (r.value.Some? <==> id in rows)
      ensures !fail && id in rows ==> r.value.value == rows[id].data
    {
      if fail {
        r := Thrown;
      } else if id in rows {
        r := Ok(Some(rows[id].data));
      } else {
        r := Ok(None);
      }
    }

    /** `SELECT timestamp ... WHERE id = ?` followed by a fetch. */
    method SelectTimestamp(id: string, fail: bool) returns (r: Reply<Option<int>>)
      ensures fail ==> r == Thrown
      ensures !fail ==> r.Ok? && (r.value.Some? <==> id in rows)
      ensures !fail && id in rows ==> r.value.value == rows[id].timestamp
    {
      if fail {
        r := Thrown;
      } else if id in rows {
        r := Ok(Some(rows[id].timestamp));
      } else {
        r := Ok(None);
      }
    }

    /**
     * `REPLACE INTO ... VALUES(id, data, timestamp)`; the reply is MySQL's affected-row count:
     * 1 for an insert, 2 when an existing row was deleted and inserted again.
     */
    method Replace(id: string, data: string, timestamp: int, fail: bool) returns (r: Reply<nat>)
      modifies this
      ensures fail ==> r == Thrown && rows == old(rows)
      ensures !fail ==> r == Ok(if id in old(rows) then 2 else 1)
      ensures !fail ==> rows == Upserted(old(rows), id, data, timestamp)
    {
      if fail {
        r := Thrown;
      } else {
        r := Ok(if id in rows then 2 else 1);
        rows := rows[id := Row(data, timestamp)];
      }
    }

    /** `DELETE ... WHERE id = ?`; the reply is the affected-row count. */
    method DeleteById(id: string, fail: bool) returns (r: Reply<nat>)
      modifies this
      ensures fail ==> r == Thrown && rows == old(rows)
      ensures !fail ==> r == Ok(if id in old(rows) then 1 else 0)
      ensures !fail ==> rows == Without(old(rows), id)
    {
      if fail {
        r := Thrown;
      } else {
        r := Ok(if id in rows then 1 else 0);
        rows := rows - {id};
      }
    }

    /** `DELETE ... WHERE timestamp < cutoff`; the reply is the number of rows removed. */
    method DeleteOlderThan(cutoff: int, fail: bool) returns (r: Reply<nat>)
      modifies this
      ensures fail ==> r == Thrown && rows == old(rows)
      ensures !fail ==> r == Ok(|old(rows)| - |rows|)
      ensures !fail ==> rows == Swept(old(rows), cutoff) && r.value == |Expired(old(rows), cutoff)|
    {
      if fail {
        r := Thrown;
      } else {
        SweptCount(rows, cutoff);
        r := Ok(|Expired(rows, cutoff)|);
        rows := Swept(rows, cutoff);
      }
    }

    /** `UPDATE ... SET timestamp = now WHERE id = ?`, with `id` possibly bound to NULL. */
    method UpdateTimestamp(id: Option<string>, now: int, fail: bool)
      modifies this
      ensures rows == if fail then old(rows) else Touched(old(rows), id, now)
    {
      if !fail {
        rows := Touched(rows, id, now);
      }
    }
  }
}
