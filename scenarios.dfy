/** Request sequences over the handlers, and what they observe. */
module Scenarios {
  import opened Php
  import opened Store
  import opened Cache
  import opened PdoSession
  import MemcacheSession
  import MemcachedSession

  const NoReadFaults := ReadFaults(false, false, false, false, false)
  const NoWriteFaults := MemcacheSession.WriteFaults(false, false, false)

  /** With nothing failing, `read` after `write` on the memcache coordinator returns the written payload. */
  method MemcacheWriteThenRead(h: MemcacheSession.SessionHandlerMemcache, id: string, data: string, start: int, now: int)
    returns (read: string)
    requires h.Valid()
    modifies h.handler, h.handler.dbh, h.memcache
    ensures read == data
  {
    var ok := h.Write(id, data, start, now, NoWriteFaults);
    read := h.Read(id, now, NoReadFaults);
  }

  /** With nothing failing, `write`, `destroy` and `read` on the memcache coordinator return "". */
  method MemcacheWriteDestroyRead(h: MemcacheSession.SessionHandlerMemcache, id: string, data: string,
                                  start: int, now: int)
    returns (read: string)
    requires h.Valid()
    modifies h.handler, h.handler.dbh, h.memcache
    ensures read == ""
  {
    var ok := h.Write(id, data, start, now, NoWriteFaults);
    var gone := h.Destroy(id, DestroyFaults(false, false));
    read := h.Read(id, now, NoReadFaults);
  }

  /**
   * On memcached, a write caches with expiration 0 ("never expires"). Once gc removed the row,
   * `destroy` removes nothing from the store, so it leaves the cache entry, and a later read still returns it.
   */
  method SweptRowOutlivesDestroy() returns (gone: bool, read: string)
    ensures !gone && read == "data"
  {
    var db := new Database(map[]);
    var mc := new Client(map[]);
    var h := new MemcachedSession.SessionHandlerMemcached(db, mc, Some(["127.0.0.1"]), false);
    var ok := h.Write("abc", "data", 0, MemcachedSession.WriteFaults(false, false, false));
    var removed := h.handler.Gc(1440, 2000, false);
    gone := h.Destroy("abc", DestroyFaults(false, false));
    read := h.Read("abc", 2000, NoReadFaults);
  }

  /**
   * Lifetime 1440: "hello" is written at 0; read at 100 by a handler whose cache is unavailable,
   * at 200 by one with memcache (a miss that repopulates it with 1240 seconds), then at 300 (a hit).
   */
  method CacheAsideWalkthrough() returns (r100: string, r200: string, cached: Entries<string>, r300: string)
    ensures r100 == "hello" && r200 == "hello" && r300 == "hello"
    ensures cached == map["abc" := Entry("hello", 1240)]
  {
    var db := new Database(map[]);
    var mc := new Client(map[]);
    var offline := new MemcacheSession.SessionHandlerMemcache(db, mc, None, false, None, 0);
    assert !offline.available;
    var ok := offline.Write("abc", "hello", 0, 0, NoWriteFaults);
    assert db.rows == map["abc" := Row("hello", 0)];
    r100 := offline.Read("abc", 100, NoReadFaults);
    var online := new MemcacheSession.SessionHandlerMemcache(db, mc, Some([true]), false, None, 0);
    assert online.available && online.gcMaxLifetime == 1440;
    r200 := online.Read("abc", 200, NoReadFaults);
    cached := mc.entries;
    r300 := online.Read("abc", 300, NoReadFaults);
  }

  /** A write that the store rejects leaves no cache entry, so the next read returns "". */
  method FailedWriteLeavesNoPhantom() returns (ok: bool, read: string)
    ensures !ok && read == ""
  {
    var db := new Database(map[]);
    var mc := new Client(map[]);
    var h := new MemcacheSession.SessionHandlerMemcache(db, mc, Some([true]), false, None, 0);
    ok := h.Write("x", "p", 10, 10, MemcacheSession.WriteFaults(true, false, false));
    read := h.Read("x", 10, NoReadFaults);
  }

  /** A row past its lifetime is not put back into memcache by the memcache coordinator. */
  method ExpiredRowNotRecached() returns (read: string, cached: Entries<string>)
    ensures read == "old" && cached == map[]
  {
    var db := new Database(map["abc" := Row("old", 0)]);
    var mc := new Client(map[]);
    var h := new MemcacheSession.SessionHandlerMemcache(db, mc, Some([true]), false, None, 1440);
    read := h.Read("abc", 1440, NoReadFaults);
    cached := mc.entries;
  }

  /** The same expired row is put back into memcached, with its age as the expiration. */
  method MemcachedRecachesExpiredRow() returns (read: string, cached: Entries<string>)
    ensures read == "old" && cached == map["abc" := Entry("old", 5000)]
  {
    var db := new Database(map["abc" := Row("old", 0)]);
    var mc := new Client(map[]);
    var h := new MemcachedSession.SessionHandlerMemcached(db, mc, Some(["127.0.0.1"]), false);
    read := h.Read("abc", 5000, NoReadFaults);
    cached := mc.entries;
  }

  /**
   * On memcached, a store error during a miss caches "" with expiration 0, so a later read
   * returns "" although the row is there.
   */
  method MemcachedCachesStoreError() returns (first: string, second: string)
    ensures first == "" && second == ""
  {
    var db := new Database(map["abc" := Row("data", 100)]);
    var mc := new Client(map[]);
    var h := new MemcachedSession.SessionHandlerMemcached(db, mc, Some(["127.0.0.1"]), false);
    first := h.Read("abc", 200, ReadFaults(false, true, true, false, false));
    second := h.Read("abc", 300, NoReadFaults);
  }

  /** On memcached, a write into an empty cache is read back; the read hits without consulting the store. */
  method MemcachedWriteThenRead(h: MemcachedSession.SessionHandlerMemcached, id: string, data: string, now: int)
    returns (read: string)
    requires h.Valid()
    requires h.memcached != null ==> id !in h.memcached.entries
    modifies h.handler, h.handler.dbh, h.memcached
    ensures read == data
  {
    var ok := h.Write(id, data, now, MemcachedSession.WriteFaults(false, false, false));
    read := h.Read(id, now, NoReadFaults);
  }

  /** On memcached, `add` keeps an earlier entry, so a read after a write returns the stale payload. */
  method MemcachedKeepsStaleEntry() returns (read: string, stored: string)
    ensures read == "old" && stored == "new"
  {
    var db := new Database(map["abc" := Row("old", 0)]);
    var mc := new Client(map["abc" := Entry("old", 0)]);
    var h := new MemcachedSession.SessionHandlerMemcached(db, mc, Some(["127.0.0.1"]), false);
    var ok := h.Write("abc", "new", 10, MemcachedSession.WriteFaults(false, false, false));
    stored := db.rows["abc"].data;
    read := h.Read("abc", 10, NoReadFaults);
  }

  /**
   * On memcache, a `replace` that throws leaves the earlier entry, and `add` is not tried,
   * so a read after the write returns the stale payload while the store holds the new one.
   */
  method MemcacheKeepsStaleEntryWhenReplaceThrows() returns (read: string, stored: string)
    ensures read == "old" && stored == "new"
  {
    var db := new Database(map["abc" := Row("old", 0)]);
    var mc := new Client(map["abc" := Entry("old", 1440)]);
    var h := new MemcacheSession.SessionHandlerMemcache(db, mc, Some([true]), false, None, 1440);
    var ok := h.Write("abc", "new", 10, 10, MemcacheSession.WriteFaults(false, true, false));
    stored := db.rows["abc"].data;
    read := h.Read("abc", 10, NoReadFaults);
  }

  /**
   * A read-only request: `close` refreshes the row that was read, while `close` as written
   * leaves its timestamp as it was.
   */
  method KeepAliveTouch() returns (touched: int, asWritten: int)
    ensures touched == 500 && asWritten == 0
  {
    var db := new Database(map["abc" := Row("data", 0)]);
    var h := new PdoSessionHandler(db);
    var data := h.Read("abc", false);
    var ok := h.CloseAsWritten(500, false);
    asWritten := db.rows["abc"].timestamp;
    ok := h.Close(500, false);
    touched := db.rows["abc"].timestamp;
  }

  /** `close` after a `write` in the same request does not touch the row again. */
  method NoTouchAfterWrite() returns (stamp: int)
    ensures stamp == 100
  {
    var db := new Database(map[]);
    var h := new PdoSessionHandler(db);
    var data := h.Read("abc", false);
    var ok := h.Write("abc", "data", 0, 100, false);
    ok := h.Close(500, false);
    stamp := db.rows["abc"].timestamp;
  }
}
