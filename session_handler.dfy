/**
 * The database session handler: the store-only layer that the cache coordinators extend.
 * Sending mail to the administrators on a caught exception is a no-op here.
 */
module PdoSession {
  import opened Php
  import opened Store

  /** What `read` hands back for `id`: the row's payload, or "" when there is no row or the query threw. */
  function ReadValue(t: Table, id: string, fail: bool): (s: string)
    ensures !fail && id in t ==> s == t[id].data
    ensures fail || id !in t ==> s == ""
  {
    if !fail && id in t then t[id].data else ""
  }

  /** The timestamp `write` stores: the given one when positive, the current time otherwise. */
  function StoredTimestamp(timestamp: int, now: int): (r: int)
    ensures 0 < timestamp ==> r == timestamp
    ensures timestamp <= 0 ==> r == now
  {
    if timestamp > 0 then timestamp else now
  }

  /** Reading an id back after a successful write yields the written payload. */
  lemma WriteThenRead(t: Table, id: string, data: string, timestamp: int)
    ensures ReadValue(Upserted(t, id, data, timestamp), id, false) == data
  {
  }

  /** Reading an id after it was deleted yields "". */
  lemma DestroyThenRead(t: Table, id: string)
    ensures ReadValue(Without(t, id), id, false) == ""
  {
  }

  /**
   * The faults a coordinator's `read` may meet, in the order the calls are made: the cache `get`,
   * the store read, the `ttl` query, the cache `add`, and the store read of the fallback.
   */
  datatype ReadFaults = ReadFaults(cacheGet: bool, storeRead: bool, storeTtl: bool, cacheAdd: bool, storeRetry: bool)

  /** The faults a coordinator's `destroy` may meet: the store delete and the cache `delete`. */
  datatype DestroyFaults = DestroyFaults(store: bool, cacheDelete: bool)

  class PdoSessionHandler {
    const dbh: Database
    /** The id of the session read in this request; None is PHP's NULL. */
    var sessionId: Option<string>
    /** Whether `write` was called in this request. */
    var sessionWritten: bool

    /** Keeps the PDO handle; registering with the session runtime and `session_start` are not modelled. */
    constructor (db: Database)
      ensures dbh == db && sessionId == None && !sessionWritten
    {
      dbh := db;
      sessionId := None;
      sessionWritten := false;
    }

    /** `open` succeeds: the constructor accepts only a PDO handle, so the `instanceof` test holds. */
    method Open(savePath: string, name: string) returns (ok: bool)
      ensures ok
    {
      ok := true;
    }

    /**
     * `close` with the keep-alive touch bound to the session id read in this request:
     * when that id is not empty and nothing was written, the row's timestamp becomes `now`.
     */
    method Close(now: int, fail: bool) returns (ok: bool)
      modifies dbh
      ensures ok
      ensures EmptyValue(sessionId) || sessionWritten || fail ==> dbh.rows == old(dbh.rows)
      ensures !EmptyValue(sessionId) && !sessionWritten && !fail ==>
                dbh.rows == Touched(old(dbh.rows), sessionId, now)
    {
      if !EmptyValue(sessionId) && !sessionWritten {
        dbh.UpdateTimestamp(sessionId, now, fail);
      }
      ok := true;
    }

    /** `close` as written: the statement binds an undefined local, i.e. NULL, so no row is ever touched. */
    method CloseAsWritten(now: int, fail: bool) returns (ok: bool)
      modifies dbh
      ensures ok
      ensures dbh.rows == old(dbh.rows)
    {
      if !EmptyValue(sessionId) && !sessionWritten {
        dbh.UpdateTimestamp(None, now, fail);
      }
      ok := true;
    }

    /** `destroy`: deletes the row; true exactly when one was removed, and only then the session id is cleared. */
    method Destroy(id: string, fail: bool) returns (destroyed: bool)
      modifies this`sessionId, dbh
      ensures destroyed <==> !fail && id in old(dbh.rows)
      ensures dbh.rows == if fail then old(dbh.rows) else Without(old(dbh.rows), id)
      ensures sessionId == if destroyed then None else old(sessionId)
    {
      var r := dbh.DeleteById(id, fail);
      if r.Ok? {
        destroyed := r.value > 0;
        if destroyed {
          sessionId := None;
        }
      } else {
        destroyed := false;
      }
    }

    /** `gc`: removes exactly the rows older than `now - maxLifetime`; true when at least one was removed. */
    method Gc(maxLifetime: int, now: int, fail: bool) returns (removed: bool)
      modifies dbh
      ensures dbh.rows == if fail then old(dbh.rows) else Swept(old(dbh.rows), now - maxLifetime)
      ensures removed <==>
                !fail && exists k :: k in old(dbh.rows) && old(dbh.rows)[k].timestamp < now - maxLifetime
    {
      ExpiredNonEmpty(dbh.rows, now - maxLifetime);
      var r := dbh.DeleteOlderThan(now - maxLifetime, fail);
      removed := r.Ok? && r.value > 0;
    }

    /** `read`: records the session id and returns the stored payload, or "" when there is none or the query threw. */
    method Read(id: string, fail: bool) returns (data: string)
      modifies this`sessionId
      ensures sessionId == Some(id)
      ensures !fail && id in dbh.rows ==> data == dbh.rows[id].data
      ensures fail || id !in dbh.rows ==> data == ""
      ensures data == ReadValue(dbh.rows, id, fail)
    {
      sessionId := Some(id);
      var r := dbh.SelectData(id, fail);
      if r.Ok? && r.value.Some? {
        data := r.value.value;
      } else {
        data := "";
      }
    }

    /**
     * `write`: marks the request as written before trying the store, then replaces the whole row.
     * It succeeds exactly when the statement does not throw, since REPLACE always affects a row.
     */
    method Write(id: string, data: string, timestamp: int, now: int, fail: bool) returns (ok: bool)
      modifies this`sessionWritten, dbh
      ensures sessionWritten
      ensures ok <==> !fail
      ensures dbh.rows == if fail then old(dbh.rows)
                          else Upserted(old(dbh.rows), id, data, StoredTimestamp(timestamp, now))
    {
      sessionWritten := true;
      var r := dbh.Replace(id, data, if timestamp > 0 then timestamp else now, fail);
      ok := r.Ok? && r.value > 0;
    }
  }
}
