/**
 * The memcached coordinator: the store stays authoritative, memcached accelerates reads.
 * Its parent is the database session handler, reached through `handler`.
 */
module MemcachedSession {
  import opened Php
  import opened Store
  import opened Cache
  import opened PdoSession

  /**
   * The availability probe. `servers` is what `getServerList` returns (None when it is not an array);
   * `addServerOk` is what `addServer` returns, which is asked only when the list is empty.
   */
  function ProbedAvailable(servers: Option<seq<string>>, addServerOk: bool): (r: bool)
    ensures r ==> servers.Some?
    ensures servers.Some? && |servers.value| == 0 ==> r == addServerOk
    ensures servers.Some? && |servers.value| > 0 ==> r
  {
    servers.Some? && (|servers.value| > 0 || addServerOk)
  }

  /** `ttl` as written: the seconds elapsed since the row was written, or None (NULL) when the query throws or finds no row. */
  function ElapsedOf(t: Table, id: string, now: int, fail: bool): (r: Option<int>)
    ensures r.Some? <==> !fail && id in t
    ensures r.Some? ==> t[id].timestamp + r.value == now
  {
    if fail || id !in t then None else Some(now - t[id].timestamp)
  }

  /** The expiration handed to memcached: PHP turns NULL into 0, which memcached reads as "never expires". */
  function Expiration(ttl: Option<int>): (e: int)
    ensures ttl.Some? ==> e == ttl.value
    ensures ttl.None? ==> e == 0
  {
    if ttl.Some? then ttl.value else 0
  }

  /** The faults a `write` may meet. */
  datatype WriteFaults = WriteFaults(store: bool, storeTtl: bool, cacheAdd: bool)

  /**
   * The memcached entries after the cache step of `write` as written: `add` is handed the undefined
   * `$cached`, which PHP reads as NULL (None), whatever `data` was written.
   */
  function WriteCacheAsWritten(m: Entries<Option<string>>, available: bool, storeOk: bool, addFails: bool,
                               id: string, data: string, expiration: int): (r: Entries<Option<string>>)
    ensures available && storeOk && !addFails && id !in m ==> r == m[id := Entry(None, expiration)]
    ensures !(available && storeOk && !addFails && id !in m) ==> r == m
  {
    if available && storeOk && !addFails then Added(m, id, None, expiration) else m
  }

  /** After a successful write of "hello" to an empty memcached, the as-written cache step stores NULL, not "hello". */
  lemma WriteAsWrittenCachesNull()
    ensures var r := WriteCacheAsWritten(map[], true, true, false, "abc", "hello", 0);
            "abc" in r && r["abc"].value == None && r["abc"].value != Some("hello")
  {
  }

  class SessionHandlerMemcached {
    /** The parent database session handler. */
    const handler: PdoSessionHandler
    /** The Memcached instance; null when the constructor was not given one. */
    const memcached: Client?
    const available: bool

    ghost predicate Valid()
    {
      available ==> memcached != null
    }

    /** Probes memcached; when `memcached` is not a Memcached instance the handler is store-only. */
    constructor (db: Database, memcached: Client?, servers: Option<seq<string>>, addServerOk: bool)
      ensures Valid()
      ensures this.memcached == memcached
      ensures available == (memcached != null && ProbedAvailable(servers, addServerOk))
      ensures fresh(handler) && handler.dbh == db && handler.sessionId == None && !handler.sessionWritten
    {
      var up := false;
      if memcached != null {
        up := servers.Some?;
        if up && |servers.value| == 0 {
          up := addServerOk;
        }
      }
      this.memcached := memcached;
      available := up;
      handler := new PdoSessionHandler(db);
    }

    /** `ttl`: the seconds elapsed since the row for `id` was written, or None. */
    method Ttl(id: string, now: int, fail: bool) returns (r: Option<int>)
      ensures r.Some? <==> !fail && id in handler.dbh.rows
      ensures r.Some? ==> handler.dbh.rows[id].timestamp + r.value == now
      ensures r == ElapsedOf(handler.dbh.rows, id, now, fail)
    {
      var q := handler.dbh.SelectTimestamp(id, fail);
      if q.Ok? && q.value.Some? {
        r := Some(now - q.value.value);
      } else {
        r := None;
      }
    }

    /**
     * `destroy`: the store decides; the cache entry is deleted only when memcached is available
     * and the store removed a row.
     */
    method Destroy(id: string, f: DestroyFaults) returns (destroyed: bool)
      requires Valid()
      modifies handler`sessionId, handler.dbh, memcached
      ensures destroyed <==> !f.store && id in old(handler.dbh.rows)
      ensures handler.dbh.rows == if f.store then old(handler.dbh.rows) else Without(old(handler.dbh.rows), id)
      ensures handler.sessionId == if destroyed then None else old(handler.sessionId)
      ensures memcached != null ==>
                memcached.entries == if available && destroyed && !f.cacheDelete
                                     then Removed(old(memcached.entries), id) else old(memcached.entries)
    {
      destroyed := handler.Destroy(id, f.store);
      if available && destroyed {
        var _ := memcached.Delete(id, f.cacheDelete);
      }
    }

    /**
     * `read`: memcached first; on a miss the store's value, even "", is added with the elapsed
     * time as its expiration. A hit does not record the session id.
     */
    method Read(id: string, now: int, f: ReadFaults) returns (data: string)
      requires Valid()
      modifies handler`sessionId, memcached
      // hit: the cached value, the store is not consulted and the session id is not recorded
      ensures available && !f.cacheGet && id in old(memcached.entries) ==>
                data == old(memcached.entries)[id].value
                && handler.sessionId == old(handler.sessionId) && memcached.entries == old(memcached.entries)
      ensures !(available && !f.cacheGet && id in old(memcached.entries)) ==> handler.sessionId == Some(id)
      // memcached unavailable: exactly what the store-only handler returns
      ensures !available ==> data == ReadValue(handler.dbh.rows, id, f.storeRead)
      // get threw: the store's value
      ensures available && f.cacheGet ==> data == ReadValue(handler.dbh.rows, id, f.storeRetry)
      // miss: the store's value is added unconditionally; when add throws, the store is read again
      ensures available && !f.cacheGet && id !in old(memcached.entries) ==>
                var v := ReadValue(handler.dbh.rows, id, f.storeRead);
                var e := Expiration(ElapsedOf(handler.dbh.rows, id, now, f.storeTtl));
                if f.cacheAdd then data == ReadValue(handler.dbh.rows, id, f.storeRetry)
                                   && memcached.entries == old(memcached.entries)
                else data == v && memcached.entries == old(memcached.entries)[id := Entry(v, e)]
      ensures memcached != null && !(available && !f.cacheGet && id !in old(memcached.entries)) ==>
                memcached.entries == old(memcached.entries)
    {
      if available {
        var got := memcached.Get(id, f.cacheGet);
        if got.Thrown? {
          data := handler.Read(id, f.storeRetry);
        } else if got.value.Some? {
          data := got.value.value;
        } else {
          data := handler.Read(id, f.storeRead);
          var ttl := Ttl(id, now, f.storeTtl);
          var added := memcached.Add(id, data, Expiration(ttl), f.cacheAdd);
          if added.Thrown? {
            data := handler.Read(id, f.storeRetry);
          }
        }
      } else {
        data := handler.Read(id, f.storeRead);
      }
    }

    /**
     * `write` with the payload handed to `add` (the source hands it an undefined variable):
     * the store first, then, only when it succeeded and memcached is available, `add` with the
     * elapsed time since the write, which is 0 ("never expires"). The result is the store's.
     */
    method Write(id: string, data: string, now: int, f: WriteFaults) returns (ok: bool)
      requires Valid()
      modifies handler`sessionWritten, handler.dbh, memcached
      ensures handler.sessionWritten
      ensures ok <==> !f.store
      ensures handler.dbh.rows == if f.store then old(handler.dbh.rows)
                                  else Upserted(old(handler.dbh.rows), id, data, now)
      ensures memcached != null ==>
                memcached.entries == if available && ok && !f.cacheAdd
                                     then Added(old(memcached.entries), id, data, 0) else old(memcached.entries)
    {
      ok := handler.Write(id, data, 0, now, f.store);
      if available && ok {
        var ttl := Ttl(id, now, f.storeTtl);
        var _ := memcached.Add(id, data, Expiration(ttl), f.cacheAdd);
      }
    }
  }
}
