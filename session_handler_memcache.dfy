/**
 * The memcache coordinator: the store stays authoritative, memcache accelerates reads.
 * Its parent is the database session handler, reached through `handler`.
 */
module MemcacheSession {
  import opened Php
  import opened Store
  import opened Cache
  import opened PdoSession

  /** The lifetime used when `session.gc_maxlifetime` is empty or zero. */
  const DefaultGcMaxLifetime: int := 1440

  /** `gc_maxlifetime` after construction, from the configured value cast to an integer. */
  function GcMaxLifetime(configured: int): (r: int)
    ensures r != 0
    ensures configured != 0 ==> r == configured
    ensures configured == 0 ==> r == DefaultGcMaxLifetime
  {
    if configured == 0 then DefaultGcMaxLifetime else configured
  }

  /**
   * `ttl` on a row written at `timestamp`: the seconds left until garbage collection
   * should remove it, or None (FALSE) once that moment has come.
   */
  function RemainingLifetime(timestamp: int, gcMaxLifetime: int, now: int): (r: Option<int>)
    ensures r.None? <==> timestamp + gcMaxLifetime <= now
    ensures r.Some? ==> 0 < r.value && now + r.value == timestamp + gcMaxLifetime
    ensures r.Some? && timestamp <= now ==> r.value <= gcMaxLifetime
  {
    if now >= timestamp + gcMaxLifetime then None else Some(timestamp + gcMaxLifetime - now)
  }

  /** `ttl` on the table: None when the query throws, when there is no row or when the row is past its lifetime. */
  function TtlOf(t: Table, id: string, gcMaxLifetime: int, now: int, fail: bool): (r: Option<int>)
    ensures fail || id !in t ==> r == None
    ensures !fail && id in t ==> r == RemainingLifetime(t[id].timestamp, gcMaxLifetime, now)
    ensures r.Some? ==> !fail && id in t && 0 < r.value && now + r.value == t[id].timestamp + gcMaxLifetime
  {
    if fail || id !in t then None else RemainingLifetime(t[id].timestamp, gcMaxLifetime, now)
  }

  /** Some server answered `getExtendedStats` (its entry is not FALSE). */
  predicate SomeUp(stats: seq<bool>)
  {
    exists i :: 0 <= i < |stats| && stats[i]
  }

  /** The `foreach ... break` scan over the per-server stats. */
  method AnyServerUp(stats: seq<bool>) returns (found: bool)
    ensures found <==> SomeUp(stats)
  {
    found := false;
    var i := 0;
    while i < |stats|
      invariant 0 <= i <= |stats|
      invariant forall j :: 0 <= j < i ==> !stats[j]
    {
      if stats[i] {
        found := true;
        break;
      }
      i := i + 1;
    }
  }

  /**
   * The availability probe. `stats` is the first `getExtendedStats` (None when it is not an array),
   * `addServerOk` what `addServer` returns, `statsAfterAdd` the second `getExtendedStats`.
   */
  function ProbedAvailable(stats: Option<seq<bool>>, addServerOk: bool, statsAfterAdd: Option<seq<bool>>): (r: bool)
    ensures stats.Some? && SomeUp(stats.value) ==> r
    ensures !(stats.Some? && |stats.value| > 0) ==>
              (r <==> addServerOk && statsAfterAdd.Some? && SomeUp(statsAfterAdd.value))
  {
    var listed := stats.Some? && |stats.value| > 0;
    var hasServers := listed && SomeUp(stats.value);
    listed || (!hasServers && addServerOk && statsAfterAdd.Some? && SomeUp(statsAfterAdd.value))
  }

  /**
   * The probe reports the cache available exactly when the first stats list any server, answering or not,
   * or when the added server makes some server answer.
   */
  lemma ProbeMeaning(stats: Option<seq<bool>>, addServerOk: bool, statsAfterAdd: Option<seq<bool>>)
    ensures ProbedAvailable(stats, addServerOk, statsAfterAdd) <==>
              (stats.Some? && |stats.value| > 0)
              || (addServerOk && statsAfterAdd.Some? && SomeUp(statsAfterAdd.value))
  {
  }

  /** A server that lists no answering host and a failing `addServer` still leave the cache reported available. */
  lemma ProbeTrustsDeadServers()
    ensures ProbedAvailable(Some([false]), false, None)
    ensures !SomeUp([false])
  {
  }

  /** The faults a `write` may meet. */
  datatype WriteFaults = WriteFaults(store: bool, cacheReplace: bool, cacheAdd: bool)

  class SessionHandlerMemcache {
    /** The parent database session handler. */
    const handler: PdoSessionHandler
    /** The Memcache instance; null when the constructor was not given one. */
    const memcache: Client?
    const available: bool
    const gcMaxLifetime: int

    ghost predicate Valid()
    {
      available ==> memcache != null
    }

    /**
     * Probes memcache and reads the lifetime. When `memcache` is not a Memcache instance
     * the handler is store-only and keeps the initial lifetime 0.
     */
    constructor (db: Database, memcache: Client?, stats: Option<seq<bool>>, addServerOk: bool,
                 statsAfterAdd: Option<seq<bool>>, configuredGcMaxLifetime: int)
      ensures Valid()
      ensures this.memcache == memcache
      ensures available == (memcache != null && ProbedAvailable(stats, addServerOk, statsAfterAdd))
      ensures gcMaxLifetime == if memcache != null then GcMaxLifetime(configuredGcMaxLifetime) else 0
      ensures fresh(handler) && handler.dbh == db && handler.sessionId == None && !handler.sessionWritten
    {
      var up := false;
      var gcMax := 0;
      if memcache != null {
        up := stats.Some? && |stats.value| > 0;
        var hasServers := false;
        if up {
          hasServers := AnyServerUp(stats.value);
        }
        if !hasServers && addServerOk && statsAfterAdd.Some? {
          var upAfterAdd := AnyServerUp(statsAfterAdd.value);
          if upAfterAdd {
            up := true;
          }
        }
        gcMax := configuredGcMaxLifetime;
        if gcMax == 0 {
          gcMax := DefaultGcMaxLifetime;
        }
      }
      this.memcache := memcache;
      available := up;
      gcMaxLifetime := gcMax;
      handler := new PdoSessionHandler(db);
    }

    /** `ttl`: the seconds the row for `id` has left, or None. */
    method Ttl(id: string, now: int, fail: bool) returns (r: Option<int>)
      ensures r.Some? <==> !fail && id in handler.dbh.rows && now < handler.dbh.rows[id].timestamp + gcMaxLifetime
      ensures r.Some? ==> 0 < r.value && now + r.value == handler.dbh.rows[id].timestamp + gcMaxLifetime
      ensures r == TtlOf(handler.dbh.rows, id, gcMaxLifetime, now, fail)
    {
      var q := handler.dbh.SelectTimestamp(id, fail);
      if q.Ok? && q.value.Some? {
        r := RemainingLifetime(q.value.value, gcMaxLifetime, now);
      } else {
        r := None;
      }
    }

    /**
     * `destroy`: the store decides; the cache entry is deleted only when memcache is available
     * and the store removed a row.
     */
    method Destroy(id: string, f: DestroyFaults) returns (destroyed: bool)
      requires Valid()
      modifies handler`sessionId, handler.dbh, memcache
      ensures destroyed <==> !f.store && id in old(handler.dbh.rows)
      ensures handler.dbh.rows == if f.store then old(handler.dbh.rows) else Without(old(handler.dbh.rows), id)
      ensures handler.sessionId == if destroyed then None else old(handler.sessionId)
      ensures memcache != null ==>
                memcache.entries == if available && destroyed && !f.cacheDelete
                                    then Removed(old(memcache.entries), id) else old(memcache.entries)
    {
      destroyed := handler.Destroy(id, f.store);
      if available && destroyed {
        var _ := memcache.Delete(id, f.cacheDelete);
      }
    }

    /**
     * `read`: memcache first, the store on a miss, and the value from the store goes back
     * into memcache only when it is not empty and its row has lifetime left.
     */
    method Read(id: string, now: int, f: ReadFaults) returns (data: string)
      requires Valid()
      modifies handler`sessionId, memcache
      ensures handler.sessionId == Some(id)
      // memcache unavailable: exactly what the store-only handler returns
      ensures !available ==> data == ReadValue(handler.dbh.rows, id, f.storeRead)
      // get threw: the store's value
      ensures available && f.cacheGet ==> data == ReadValue(handler.dbh.rows, id, f.storeRetry)
      // hit: the cached value, the store is not consulted
      ensures available && !f.cacheGet && id in old(memcache.entries) ==> data == old(memcache.entries)[id].value
      // miss: the store's value, or the store's value again when add threw
      ensures available && !f.cacheGet && id !in old(memcache.entries) ==>
                var v := ReadValue(handler.dbh.rows, id, f.storeRead);
                var ttl := TtlOf(handler.dbh.rows, id, gcMaxLifetime, now, f.storeTtl);
                if !EmptyString(v) && ttl.Some? && f.cacheAdd
                then data == ReadValue(handler.dbh.rows, id, f.storeRetry)
                else data == v
      // memcache is left alone, or gains exactly the live, non-empty row for id with its remaining lifetime
      ensures memcache != null && memcache.entries != old(memcache.entries) ==>
                available && !f.cacheGet && !f.storeRead && !f.storeTtl && !f.cacheAdd
                && id !in old(memcache.entries) && id in handler.dbh.rows
                && !EmptyString(handler.dbh.rows[id].data)
                && now < handler.dbh.rows[id].timestamp + gcMaxLifetime
                && memcache.entries == old(memcache.entries)[id := Entry(handler.dbh.rows[id].data,
                                                                  handler.dbh.rows[id].timestamp + gcMaxLifetime - now)]
      // and it does gain it whenever nothing fails on the way
      ensures available && !f.cacheGet && !f.storeRead && !f.storeTtl && !f.cacheAdd
              && id !in old(memcache.entries) && id in handler.dbh.rows
              && !EmptyString(handler.dbh.rows[id].data)
              && now < handler.dbh.rows[id].timestamp + gcMaxLifetime
              ==> memcache.entries != old(memcache.entries)
    {
      handler.sessionId := Some(id);
      if available {
        var got := memcache.Get(id, f.cacheGet);
        if got.Thrown? {
          data := handler.Read(id, f.storeRetry);
        } else if got.value.Some? {
          data := got.value.value;
        } else {
          data := handler.Read(id, f.storeRead);
          if !EmptyString(data) {
            var ttl := Ttl(id, now, f.storeTtl);
            if ttl.Some? && ttl.value > 0 {
              var added := memcache.Add(id, data, ttl.value, f.cacheAdd);
              if added.Thrown? {
                data := handler.Read(id, f.storeRetry);
              }
            }
          }
        }
      } else {
        data := handler.Read(id, f.storeRead);
      }
    }

    /**
     * `write`: the store first, with one captured instant `start`; memcache only after the store
     * write succeeded, by `replace` and, when that found no entry, `add`, with the lifetime less the
     * seconds elapsed since `start`. The result is the store's.
     */
    method Write(id: string, data: string, start: int, now: int, f: WriteFaults) returns (ok: bool)
      requires Valid()
      modifies handler`sessionWritten, handler.dbh, memcache
      ensures handler.sessionWritten
      ensures ok <==> !f.store
      ensures handler.dbh.rows == if f.store then old(handler.dbh.rows)
                                  else Upserted(old(handler.dbh.rows), id, data, start)
      // memcache is left alone, or holds exactly the new payload for id
      ensures memcache != null && memcache.entries != old(memcache.entries) ==>
                available && ok
                && memcache.entries == old(memcache.entries)[id := Entry(data, gcMaxLifetime - (now - start))]
      ensures memcache != null && memcache.entries != old(memcache.entries) && start <= now ==>
                memcache.entries[id].ttl <= gcMaxLifetime
      // it holds it exactly when no cache call on the path threw: `add` is tried only after
      // `replace` found no entry, and a throwing `replace` or `add` leaves the cache unchanged
      ensures memcache != null ==>
                memcache.entries == if available && ok && !f.cacheReplace && (id in old(memcache.entries) || !f.cacheAdd)
                                    then old(memcache.entries)[id := Entry(data, gcMaxLifetime - (now - start))]
                                    else old(memcache.entries)
    {
      ok := handler.Write(id, data, start, start, f.store);
      if available && ok {
        var ttl := gcMaxLifetime - (now - start);
        ghost var before := memcache.entries;
        var replaced := memcache.Replace(id, data, ttl, f.cacheReplace);
        if replaced == Ok(false) {
          var _ := memcache.Add(id, data, ttl, f.cacheAdd);
        }
        if !f.cacheReplace && (id in before || !f.cacheAdd) {
          ReplaceElseAdd(before, id, data, ttl);
        }
      }
    }
  }
}
