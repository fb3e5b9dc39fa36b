# Cache-aside session persistence, modelled in Dafny

This project models the session save handlers of a small PHP library. A session payload is kept in a
database table, which is the authoritative store. A memcache or memcached server can sit in front of
it as a read/write accelerator. Three handlers are modelled:

- `PdoSession.PdoSessionHandler` (session_handler.php) is the store-only handler. It has `read`,
  `write`, `destroy`, `gc`, `open` and `close`. `close` does a keep-alive touch guarded by the
  handler's two fields `session_id` and `session_written`.
- `MemcacheSession.SessionHandlerMemcache` (session_handler_memcache.php) is the memcache
  coordinator. It probes availability and fixes `gc_maxlifetime` (default 1440). `read` goes to the
  cache first and falls back to the store on a miss. `write` goes to the store first and then does
  replace-else-add on the cache. `destroy` invalidates the cache only after the store removed the row.
- `MemcachedSession.SessionHandlerMemcached` (session_handler_memcached.php) is the memcached
  variant. Its probe differs, its "ttl" is the elapsed time, and it repopulates the cache unconditionally.

The store is `Store.Database`, a class whose field `rows` maps a session id to a `Row(data, timestamp)`.
Each of its methods is one of the SQL statements the handlers prepare. The cache is `Cache.Client`,
a class whose field `entries` maps a key to an `Entry(value, ttl)`. Its methods are `get`, `add`,
`replace` and `delete`. Both objects are shared, so several handlers can work on one store and one
cache (see `Scenarios.CacheAsideWalkthrough`).

Inputs the model cannot compute are parameters:
- The current time is a `now` argument. The memcache `write` takes two instants: `start`, the
  captured timestamp, and `now`, the later clock reading used for the TTL.
- Each backend call that can throw takes a `fail` flag. The coordinators take a record of such
  flags (`ReadFaults`, `WriteFaults`, `DestroyFaults`), one per call in the order the source makes them.
- The probe results are parameters: what `getExtendedStats`, `getServerList` and `addServer` return.
- The configured `session.gc_maxlifetime` is a parameter too.

PHP inheritance becomes composition. Each coordinator holds its parent handler in `handler`. The
inherited operations (`close`, `gc`, `open`) are called through it, and the parent's fields
`session_id` and `session_written` are the ones the coordinator updates.

Decisions where the code and the intended design part ways:
- session_handler_memcache.php:14 declares PHP's built-in `SessionHandler` as the parent. Yet the
  class calls a three-argument `parent::write` (:139), `$this->prepare` (:168) and `email_admins`
  (:80), and it loads session_handler.php (:3). The model gives it the evidently intended parent
  `PDOSessionHandler`.
- The memcache probe leaves `available` TRUE when the stats list servers, none of them answers and
  `addServer` fails (lines 30 and 42-51). The comment at line 32 says "make sure we have at least one memcache server". The model
  follows the code; `MemcacheSession.ProbeTrustsDeadServers` exhibits the case.
- memcached's `ttl` is the elapsed time since the write, not the remaining lifetime
  (session_handler_memcached.php:124). The model follows the code. So an expired row is put back
  into memcached (`Scenarios.MemcachedRecachesExpiredRow`). A write caches with expiration 0, which
  memcached reads as "never expires".
- memcached's `read` adds the store's value even when it is "" (:73). So a store error during a
  miss caches an empty session (`Scenarios.MemcachedCachesStoreError`).
- memcached's `write` uses `add`, which keeps an existing entry. So a read after a write can return
  the previous payload (`Scenarios.MemcachedKeepsStaleEntry`).
- memcached's `read` records no session id on a cache hit. A later `close` then does not touch the row.
- Both coordinators invalidate the cache only when the store removed a row. On memcached, whose write
  caches with expiration 0, an entry whose row gc already swept survives `destroy` and is still read
  (`Scenarios.SweptRowOutlivesDestroy`). On memcache every entry expires at the row's
  timestamp + gc_maxlifetime, so the same needs gc run with a lifetime shorter than gc_maxlifetime.
- PHP's `empty()` counts "0" as empty. So the payload "0" is never put back into memcache (:107),
  and a session id "0" is never touched by `close` (session_handler.php:48).

## Model

| member | source | states |
|---|---|---|
| Store.Upserted | session_handler.php:142-143 | REPLACE replaces the whole row for the id with the new payload and timestamp; every other row is unchanged |
| Store.Without | session_handler.php:68-69 | DELETE by id removes that id's row and keeps every other row unchanged |
| Store.Expired | session_handler.php:89-90 | the rows matched by the gc DELETE are exactly those older than the cutoff |
| Store.Swept | session_handler.php:89-90 | after the gc DELETE a row remains iff its timestamp is not below the cutoff, and the remaining rows are unchanged |
| Store.Touched | session_handler.php:50-51 | the keep-alive UPDATE sets the matched row's timestamp to now and keeps its payload; a NULL key matches no row; other rows are unchanged |
| Store.ExpiredNonEmpty | session_handler.php:91 | the gc DELETE removes some row iff some row is older than the cutoff |
| Store.SweptCount | session_handler.php:91 | the kept rows and the removed rows partition the table, so the affected-row count is the number of rows removed |
| Store.Database.SelectData | session_handler.php:120-122 | the fetch yields the row's payload iff a row for the id exists; throws when the statement fails |
| Store.Database.SelectTimestamp | session_handler_memcache.php:168-170 | the fetch yields the row's timestamp iff a row for the id exists; throws when the statement fails |
| Store.Database.Replace | session_handler.php:142-144 | REPLACE upserts the row and reports a positive affected-row count (1 insert, 2 replace); on failure nothing changes |
| Store.Database.DeleteById | session_handler.php:68-70 | DELETE by id removes the row and reports 1 if it existed and 0 otherwise; on failure nothing changes |
| Store.Database.DeleteOlderThan | session_handler.php:89-91 | the gc DELETE leaves exactly the rows not older than the cutoff and reports how many rows it removed |
| Store.Database.UpdateTimestamp | session_handler.php:50-51 | the UPDATE touches the bound id's row, or nothing when it fails |
| Cache.Added | session_handler_memcache.php:111 | `add` stores the entry only when the key is absent and never overwrites an existing entry |
| Cache.Replaced | session_handler_memcache.php:145 | `replace` stores the entry only when the key is present; no key is added |
| Cache.Removed | session_handler_memcache.php:78 | `delete` removes the key and keeps every other entry |
| Cache.ReplaceElseAdd | session_handler_memcache.php:145-149 | `replace`, then `add` only when `replace` found no entry, leaves exactly the new entry for the key in every cache state |
| Cache.Client.Get | session_handler_memcache.php:98 | `get` yields the cached value iff the key is present (FALSE otherwise) and throws when the call fails |
| Cache.Client.Add | session_handler_memcached.php:73 | `add` reports whether it stored and changes the entries as `Added` says; a throwing call changes nothing |
| Cache.Client.Replace | session_handler_memcache.php:145 | `replace` reports whether an entry existed and changes the entries as `Replaced` says; a throwing call changes nothing |
| Cache.Client.Delete | session_handler_memcache.php:78 | `delete` removes the entry; a throwing call changes nothing |
| Php.EmptyString | session_handler_memcache.php:107 | PHP `empty()` on a string: true exactly for "" and "0" |
| Php.EmptyValue | session_handler.php:48 | PHP `empty()` on a string or NULL: true for NULL, "" and "0" |
| PdoSession.ReadValue | session_handler.php:123-129 | `read`'s result: the row's payload when the query succeeds and the row exists, "" otherwise |
| MemcacheSession.TtlOf | session_handler_memcache.php:166-185 | `ttl` over the table: FALSE on a throw or a missing row, otherwise the row's remaining lifetime, which when present is positive and ends at timestamp + lifetime |
| MemcacheSession.ProbedAvailable | session_handler_memcache.php:27-52 | the probe's `available`: TRUE whenever a listed server answers; when the first stats list no server, TRUE iff `addServer` succeeds and a server then answers |
| PdoSession.StoredTimestamp | session_handler.php:143 | the stored timestamp is the supplied one when positive and the current time otherwise |
| PdoSession.WriteThenRead | session_handler.php:117-151 | reading an id after a successful write of it yields the written payload |
| PdoSession.DestroyThenRead | session_handler.php:66-130 | reading an id after its row was deleted yields "" |
| PdoSession.PdoSessionHandler.Open | session_handler.php:106-110 | `open` returns TRUE: the handle is always a PDO instance, so the instanceof test holds |
| PdoSession.PdoSessionHandler.Close | session_handler.php:43-59 | `close` returns TRUE; only when the session id is non-empty, nothing was written and the UPDATE succeeds is that row's timestamp set to now; otherwise the table is unchanged |
| PdoSession.PdoSessionHandler.CloseAsWritten | session_handler.php:48-51 | `close` as written returns TRUE and never changes the table, because it binds an undefined variable |
| PdoSession.PdoSessionHandler.Destroy | session_handler.php:66-80 | returns TRUE iff a row for the id existed and the DELETE succeeded; the session id is cleared only then; other rows are untouched |
| PdoSession.PdoSessionHandler.Gc | session_handler.php:87-98 | removes exactly the rows older than now - maxlifetime and keeps all others; TRUE iff at least one row was removed; FALSE on error |
| PdoSession.PdoSessionHandler.Read | session_handler.php:117-130 | records the id as the session id; returns the stored payload, or "" when there is no row or the query throws |
| PdoSession.PdoSessionHandler.Write | session_handler.php:139-151 | marks the request written even when the store then fails; replaces the whole row with the defaulted timestamp; TRUE iff the statement did not throw |
| PdoSession.PdoSessionHandler.constructor | session_handler.php:24-25 | keeps the PDO handle; no session id and nothing written yet |
| MemcacheSession.GcMaxLifetime | session_handler_memcache.php:55-59 | the lifetime is never 0: the configured value, or 1440 when that is empty or zero |
| MemcacheSession.RemainingLifetime | session_handler_memcache.php:172-179 | FALSE iff now has reached timestamp + lifetime; otherwise a strictly positive count that ends exactly at that moment and is at most the lifetime when the timestamp is not in the future |
| MemcacheSession.AnyServerUp | session_handler_memcache.php:35-40 | the foreach/break scan finds an answering server iff some per-server stats entry is not FALSE |
| MemcacheSession.ProbeMeaning | session_handler_memcache.php:27-52 | the probe reports available iff the first stats list any server, or `addServer` succeeded and a server then answers |
| MemcacheSession.ProbeTrustsDeadServers | session_handler_memcache.php:30-51 | one listed server that does not answer and a failing `addServer` still give `available` TRUE |
| MemcacheSession.SessionHandlerMemcache.constructor | session_handler_memcache.php:25-66 | without a Memcache instance the handler is unavailable with lifetime 0; with one, `available` is the probe's result and the lifetime is never 0 |
| MemcacheSession.SessionHandlerMemcache.Ttl | session_handler_memcache.php:166-185 | FALSE when the query throws, no row exists or now >= timestamp + lifetime; otherwise the strictly positive seconds left |
| MemcacheSession.SessionHandlerMemcache.Destroy | session_handler_memcache.php:73-86 | returns the store's result; the cache entry is deleted only when the cache is available and the store removed the row |
| MemcacheSession.SessionHandlerMemcache.Read | session_handler_memcache.php:94-128 | always records the session id; unavailable: exactly the store's read; hit: the cached value; get throwing: the store's read; miss: the store's value, and the cache gains an entry only for a live non-empty row, with ttl = its remaining lifetime, never overwriting |
| MemcacheSession.SessionHandlerMemcache.Write | session_handler_memcache.php:136-157 | writes the store with the captured timestamp and returns its result; the cache holds exactly the payload with ttl gc_maxlifetime - (now - start) when the store write succeeded on an available cache and neither `replace` nor the `add` tried after it threw, and is unchanged otherwise; the ttl is at most gc_maxlifetime when time does not go back |
| MemcachedSession.ProbedAvailable | session_handler_memcached.php:26-31 | unavailable unless the server list is an array; with an empty list it is `addServer`'s result; with servers it is available |
| MemcachedSession.ElapsedOf | session_handler_memcached.php:118-130 | NULL when no row exists or the query throws; otherwise the seconds since the row's timestamp |
| MemcachedSession.Expiration | session_handler_memcached.php:73 | a NULL ttl reaches memcached as expiration 0 |
| MemcachedSession.WriteCacheAsWritten | session_handler_memcached.php:99-110 | as written, a successful write adds NULL for the id, whatever payload was written |
| MemcachedSession.WriteAsWrittenCachesNull | session_handler_memcached.php:103 | writing "hello" into an empty cache leaves NULL cached, not "hello" |
| MemcachedSession.SessionHandlerMemcached.constructor | session_handler_memcached.php:22-38 | without a Memcached instance the handler is unavailable; with one, `available` is the probe's result |
| MemcachedSession.SessionHandlerMemcached.Ttl | session_handler_memcached.php:118-130 | NULL when no row exists or the query throws; otherwise now - timestamp |
| MemcachedSession.SessionHandlerMemcached.Destroy | session_handler_memcached.php:45-58 | returns the store's result; the cache entry is deleted only when the cache is available and the store removed the row |
| MemcachedSession.SessionHandlerMemcached.Read | session_handler_memcached.php:66-89 | unavailable: the store's read; hit: the cached value, with the session id not recorded; get throwing: the store's read; miss: the store's value, added unconditionally (even "") with the elapsed time as expiration |
| MemcachedSession.SessionHandlerMemcached.Write | session_handler_memcached.php:97-111 | writes the store first and returns its result; only after a successful store write on an available cache is the payload added, with expiration 0 |
| Scenarios.MemcacheWriteThenRead | session_handler_memcache.php:136-157 | with no failures, a read after a write returns the written payload, whether the cache is available or not |
| Scenarios.MemcacheWriteDestroyRead | session_handler_memcache.php:73-86 | with no failures, write, destroy, read returns "" |
| Scenarios.SweptRowOutlivesDestroy | session_handler_memcached.php:47 | on memcached, after a write and a gc that removed the row, destroy reports FALSE, leaves the never-expiring cache entry, and a read still returns the payload |
| Scenarios.CacheAsideWalkthrough | session_handler_memcache.php:94-128 | lifetime 1440, write at 0: unavailable read at 100 sees the store; read at 200 misses and caches with ttl 1240; read at 300 hits |
| Scenarios.FailedWriteLeavesNoPhantom | session_handler_memcache.php:139-140 | a write the store rejects leaves no cache entry, so the next read returns "" |
| Scenarios.ExpiredRowNotRecached | session_handler_memcache.php:108-111 | a row past its lifetime is returned but not put back into the cache |
| Scenarios.MemcachedRecachesExpiredRow | session_handler_memcached.php:73 | memcached puts an expired row back into the cache, with its age as the expiration |
| Scenarios.MemcachedCachesStoreError | session_handler_memcached.php:71-73 | a store error during a memcached miss caches "", and a later read returns "" although the row exists |
| Scenarios.MemcachedWriteThenRead | session_handler_memcached.php:97-111 | with no failures and no earlier entry, a read after the corrected write returns the written payload |
| Scenarios.MemcachedKeepsStaleEntry | session_handler_memcached.php:103 | an earlier cache entry survives the write's `add`, so the read returns the previous payload |
| Scenarios.MemcacheKeepsStaleEntryWhenReplaceThrows | session_handler_memcache.php:145-154 | a `replace` that throws leaves the earlier entry and `add` is not tried, so the read returns "old" while the store holds "new" |
| Scenarios.KeepAliveTouch | session_handler.php:48-51 | after a read-only request, the corrected close sets the row's timestamp to now; close as written leaves it unchanged |
| Scenarios.NoTouchAfterWrite | session_handler.php:48 | close after a write in the same request does not touch the row again |

## Findings

| source | as written | input that shows it | evidently intended | confidence | as-written member | corrected member |
|---|---|---|---|---|---|---|
| session_handler.php:51 | the keep-alive UPDATE binds the undefined local `$session_id`, i.e. NULL, so `WHERE id = NULL` matches no row | a row "abc" with timestamp 0, `read("abc")`, then `close` at 500: the timestamp stays 0 | bind `$this->session_id`, so the row read in this request gets timestamp now | high (not executed) | PdoSession.PdoSessionHandler.CloseAsWritten | PdoSession.PdoSessionHandler.Close |
| session_handler_memcached.php:103 | `add` is handed the undefined `$cached`, i.e. NULL, instead of the written payload | `write("abc", "hello")` into an empty memcached: the entry for "abc" is NULL, and a read hit returns it | hand `$session_data` to `add` | high (not executed) | MemcachedSession.WriteAsWrittenCachesNull | MemcachedSession.SessionHandlerMemcached.Write |

The corrected members are the ones the rest of the model uses. `Scenarios.KeepAliveTouch` and
`Scenarios.MemcachedWriteThenRead` state the intended behaviour of the two corrections.

## Left out

- Registration with the PHP session runtime (`session_set_save_handler`, `register_shutdown_function`, `session_start`, session_handler.php:28-37): host lifecycle plumbing, not decision logic.
- `email_admins` / `mail()`: alerting is fire-and-forget I/O and is a no-op here, so the model does not count alerts.
- The SQL text, `sprintf` and the configurable table name (`prepare`, session_handler.php:157-159): the statements are replaced by the methods of `Store.Database` over the table map.
- Network discovery (`getExtendedStats`, `getServerList`, `addServer` with `$_SERVER['SERVER_ADDR']`): their results are constructor parameters.
- session_handler_encrypted.php is not part of this model. It only composes foreign 3DES-ECB and base64 calls and truncates the key to 24 characters. Zero padding alters the plaintext, so no round trip can be stated from the visible code.
- Concurrency between requests and servers on the shared store and cache, and the wall clock: time is an input and every call is sequential.
- The `NOW()` datetime written by the keep-alive UPDATE against the integer timestamps elsewhere (session_handler.php:50): the touch sets the timestamp to the integer `now`.
- Expiry and eviction inside memcache/memcached: an entry keeps the expiration it was stored with as a number. Time never removes it, nor does the 30-day absolute-time rule or eviction.
- The order of the store call before the cache call is not recorded as a trace. It is stated as a dependency: the cache changes only after the store write succeeded and then holds the written payload.
- Exceptions from the database other than PDOException: a fault flag is a PDOException, which every database call in the source catches.
- The memcache compression flag argument (`FALSE`) and PHP's casts of configuration strings to integers: integers are taken as given.
- MemcacheSession.SessionHandlerMemcache.Ttl: reads the clock once, where the source reads it twice (:173 and :178), so the later `$ttl > 0` test (:110) always holds once `ttl` returned a number.
- PdoSession.PdoSessionHandler.Write: the parent's own `time()` fallback and the coordinators' clock readings are the same instant (`now`, or `start` for the memcache write).
