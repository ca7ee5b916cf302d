# mxcache cache core, modelled in Dafny

This project models the cache core of the `mxcache` Go package. Callers use one interface, `MXCacher`, with `Get`, `Set` and `Expire`. A connection string selects the backend behind it:

- `memory`: an in-process TTL store. It is a map from key to `{Tstamp, Ex, Datum}`, read with a lazy expiry check and swept periodically by `gc`.
- `redis`: an adapter over a Redis server.
- `mem+redis`: a two-tier cache. The in-process store (tier 1) sits in front of Redis (tier 2). Reads are cache-aside and writes are write-through.
- An empty connection string selects `nilCache`, which stores nothing.

Modelling choices:

- **Pure steps.** Each operation holds the store's lock for its whole run, so each is one pure function from the old state to the new state plus the Go return values.
- **Time.** Time is an explicit integer `now`. Timestamps and TTLs count nanoseconds, as Go's `time.Duration` does, and `Second` is 10^9.
- **Stored values.** A stored `interface{}` is a `Datum`. Go's nil is `Nil`, which is also what every `Get` returns for "not found".
- **Abstract parameters.** These are passed in as parameters rather than modelled:
  - `filepath.Match` and the server-side glob of Redis `KEYS`;
  - the order in which a Go `range` visits a map, and the order of a `KEYS` reply. An order is any listing of the keys without repeats.
- **The remote tier.** Redis is abstract (`RemoteTier`). It is a map from live key to value and remaining TTL: none, or the whole seconds the server reports (rounded to the nearest second, so 0 for a live key with under half a second left). A fault table gives each failing command the error it returns. The TTL query replies in the Redis convention: -2 for a missing key, -1 for no expiry, otherwise the remaining seconds as a duration.

Modules, one per source file or component:

- `Base`: shared types (`Option`, `Result`, `Error`, `Datum`) and `Second`.
- `MemoryCache` (cachememory.go): `ExpireErrors`, the entry and storage types, `Set`, `Get`, `Expire`, `gc`.
- `RemoteTier` (cacheredis.go): the abstract remote service, as far as the two-tier cache uses it.
- `MemRedisCache` (cachememredis.go): the two-tier `Get`, `Set` and `Expire`.
- `Cache` (cache.go): the scheme table, `NewMXCache`, and `Get`/`Set`/`Expire` for every backend, including the no-op `nilCache`.

The two-tier `Get` copies a tier-2 hit into tier 1 with a mismatched unit. `TTL(...).Val()` returns a `time.Duration`, a nanosecond count. `memoryCache.Set` and `redisCache.Set` read their `ex` argument as seconds (cachememory.go:95-96, cacheredis.go:66-67). So the copy's TTL is the remaining time multiplied by 10^9. A TTL reply of 0 also makes the copy permanent: that reply comes from a live key with under half a second left or from a failed query. `MemRedisCache.GetAsWritten` follows the code. `MemRedisCache.Get` is the corrected version, which the backend dispatch in `Cache` uses. See "## Findings".

## Model

| member | source | states |
|---|---|---|
| MemoryCache.ErrorMessage | cachememory.go:17-29 | The `ExpireErrors.Error` loop builds the messages in order, with ", " after every one but the last, which is exactly the reference `Join` |
| MemoryCache.JoinNoTrailingSeparator | cachememory.go:20-27 | The combined message ends with the last message (no separator is appended after it), and its length is the messages' lengths plus 2 per separator |
| MemoryCache.CombinedError | cachememory.go:31-36 | `Err()` is nil exactly when no error was collected; otherwise its message is the joined messages |
| MemoryCache.Set | cachememory.go:90-108 | Set stores the datum under the key stamped `now`. A TTL of `ex > 0` seconds becomes `ex` seconds, `ex <= 0` becomes 0 (permanent). Any previous entry is replaced, every other key is untouched, and there is no error result because Go always returns nil |
| MemoryCache.Get | cachememory.go:110-127 | An absent key reads as nil and an entry with `Ex > 0` and `now - Tstamp >= Ex` reads as nil; otherwise Get returns the stored datum. Get only reads the map |
| MemoryCache.GetAfterSet | cachememory.go:90-127 | A Get at the time of a Set returns the datum just set, whatever the TTL |
| MemoryCache.GetAfterSetLater | cachememory.go:90-127 | A permanent entry is served at any later time. An entry with a TTL of `ex` seconds is served while less than `ex` seconds have passed and reads as not found once they have |
| MemoryCache.SetKeepsOtherKeys | cachememory.go:99-103 | Setting one key does not change what Get returns for any other key at any time |
| MemoryCache.MatchErrorsEmptyIff | cachememory.go:145-148 | At least one error is collected exactly when the match of some visited key failed |
| MemoryCache.Scan | cachememory.go:145-156 | The wildcard `range` loop deletes and reports exactly the visited keys that matched with a TTL, each once. All other entries keep their values. The collected errors are the failed matches' errors in visiting order. When nothing is eligible, nothing changes |
| MemoryCache.Expire | cachememory.go:129-160 | Exact pattern (no `*`): returns `[pattern]` with no error and deletes the key whatever its TTL, even when absent. Wildcard: removes and reports exactly the matched keys with `Ex > 0`. Permanent matches, non-matches and failed matches stay unchanged. An error comes back exactly when some match failed, and it combines the failures in visiting order |
| MemoryCache.ExactExpireIdempotent | cachememory.go:136-141 | A second exact Expire of the same key gives the same map, key list and error |
| MemoryCache.NothingLeftToExpire | cachememory.go:145-156 | After a wildcard Expire no stored key is eligible for the same pattern |
| MemoryCache.WildcardExpireIdempotent | cachememory.go:145-159 | A second wildcard Expire with the same pattern leaves the map as it is and reports no key |
| MemoryCache.WildcardExpireErrorsPersist | cachememory.go:145-159 | A second wildcard Expire with the same pattern fails exactly when the first did |
| MemoryCache.Gc | cachememory.go:162-174 | The sweep at `now` keeps exactly the entries not logically expired, unchanged |
| MemoryCache.GcLoop | cachememory.go:167-171 | The range-and-delete loop of `gc` reads the clock anew at every visited key. In any visiting order and with any nondecreasing clock readings, each key is deleted exactly when it is expired at its own reading and nothing else changes. The result keeps at least the sweep at the last reading and at most the sweep at the first. On a clock that does not move it is exactly the swept map |
| MemoryCache.GcIdempotent | cachememory.go:162-171 | A second sweep at the same time changes nothing |
| MemoryCache.GcAbsorbsEarlier | cachememory.go:162-171 | A sweep at `t1` followed by one at `t2 >= t1` equals the sweep at `t2` alone |
| MemoryCache.GcInvisibleToGet | cachememory.go:162-171 | Sweeping does not change what Get returns at the same time |
| RemoteTier.Get | cacheredis.go:39-62 | Remote Get returns the stored value, nil with no error for a missing key, or the command's error |
| RemoteTier.Set | cacheredis.go:64-77 | Remote Set stores the value with `ex` seconds of TTL (none for `ex <= 0`) unless the value is nil (encoding error) or the command fails. On failure nothing changes |
| RemoteTier.Expire | cacheredis.go:79-97 | Exact pattern: returns `[pattern]` and deletes the key, or returns DEL's own error and deletes nothing. Wildcard: returns the keys KEYS lists and deletes all of them, permanent or not. A failing KEYS returns no key with its error. No matching key returns no error. A failing DEL on a non-empty list returns DEL's error and deletes nothing, and a working DEL returns no error |
| RemoteTier.Ttl | cachememredis.go:48-49 | The TTL query answers -2 for a missing key, -1 for a key without expiry, otherwise the reported remaining seconds (possibly 0) as a duration. It fails only when the command fails |
| MemRedisCache.GetAsWritten | cachememredis.go:33-55 | Tier-1 hit: returns the value without consulting tier 2. Miss with a tier-2 error: that error, tier 1 unchanged. Miss with a tier-2 miss: not found, nothing cached. Tier-2 hit: calls tier-1 Set with the raw TTL duration (0 if the TTL query failed) as `ex`, so a positive duration gives the copy that duration times 10^9 and a zero one makes it permanent, then returns the value |
| MemRedisCache.Get | cachememredis.go:33-55 | Same branches as GetAsWritten, except the tier-2 hit. When the remote lifetime is known, the tier-1 copy is stamped `now` and given the remote key's remaining TTL, or no TTL if the remote key has none, and every other tier-1 entry is kept. When the TTL query fails or reports 0 seconds, the value is returned and tier 1 is left unchanged |
| MemRedisCache.PopulateEx | cachememredis.go:49-51 | The corrected populate decision: a duration of `n` whole seconds becomes `n`, the no-expiry reply becomes "permanent", and a zero duration or the missing-key reply (-2) means no copy |
| MemRedisCache.SecondGetHitsTier1 | cachememredis.go:35-51 | After a tier-2 hit with a known lifetime, the next Get of the key at the same time is answered from tier 1: same value, no change, whatever tier 2's state (even all commands failing) |
| MemRedisCache.PopulatedCopyExpiresWithRemote | cachememredis.go:48-51 | With the corrected populate, the tier-1 copy of a key with `n` seconds left is served exactly while less than `n` seconds have passed |
| MemRedisCache.UnknownLifetimeNotCopied | cachememredis.go:48-51 | With the corrected populate, a key whose TTL query fails or reports 0 seconds is not copied: tier 1 is unchanged and reads the same at every later time |
| MemRedisCache.SubSecondKeyCachedForever | cachememredis.go:48-51 | As written, a key whose TTL query fails or reports 0 seconds is copied into tier 1 with no expiry and served at every later time |
| MemRedisCache.PopulateTtlUnitMismatch | cachememredis.go:48-51 | With 5 s left remotely, the as-written tier-1 copy has a TTL of 5·10^9 s and is still served 5 s later, when the corrected copy has expired |
| MemRedisCache.Set | cachememredis.go:57-60 | Write-through: tier 1 is set first, always. Tier 2 is then set, and only tier 2's error is returned |
| MemRedisCache.SetPartialFailure | cachememredis.go:57-60 | When tier 2's write fails, the caller gets the error and tier 2 is unchanged, but tier 1 already serves the new datum |
| MemRedisCache.GetAfterSet | cachememredis.go:33-60 | A successful or failed write-through of a non-nil datum is read back at once from tier 1, without any change |
| MemRedisCache.Expire | cachememredis.go:62-65 | Both tiers are expired. Tier 1's key list and error are dropped, and the caller gets tier 2's key list and error |
| MemRedisCache.ExpireDropsTier1Errors | cachememredis.go:62-65 | With a working tier 2, a wildcard Expire reports no error even if every tier-1 match failed, and tier 1 still loses exactly its eligible keys |
| Cache.RemoteUri | cachememredis.go:22 | The remote connection string is the text after the first `+`: the URI is a `+`-free prefix, then `+`, then the result |
| Cache.RemoteUriOfComposite | cachememredis.go:22 | For `scheme+rest` with no `+` in `scheme` the remote connection string is `rest` |
| Cache.BackendTable | cache.go:19-23 | The table holds exactly `memory`, `redis` and `mem+redis`, mapping `memory` to the memory constructor, `redis` to the Redis constructor and `mem+redis` to the two-tier constructor |
| Cache.NewMXCache | cache.go:25-40 | An empty URI gives the no-op cache and no error. A parse error is returned as is. An unknown scheme gives `invalid cache backend <scheme>`. `memory` gives an empty store. `redis` connects to the URI and gives the Redis backend on that connection, or passes on the connection error. `mem+redis` connects to the text after the first `+` and gives an empty tier 1 in front of that connection, or passes on the connection error |
| Cache.Get | cache.go:48-50 | The no-op cache reports not-found with no error. The memory store never errors and never changes. Redis and the two-tier backend answer exactly as their own Get does; only the two-tier read changes state, and only in tier 1 |
| Cache.Set | cache.go:44-46 | The no-op cache succeeds and stays as it is. The memory store always succeeds. Redis and the two-tier backend give exactly the state and error of their own Set: the two-tier one writes both tiers and returns tier 2's error. No Set changes the backend kind |
| Cache.Expire | cache.go:52-54 | The no-op cache returns an empty key list and no error. Every real backend reports an exact pattern back as its one expired key. The memory store and Redis give exactly their own Expire's state, key list and error; the two-tier backend expires both tiers and returns tier 2's key list and error |
| Cache.EmptyUriDisablesCaching | cache.go:25-54 | With an empty URI, construction succeeds, every Get misses, and every Set and Expire succeeds without changing anything |
| Cache.PermanentKeysSurviveOnlyInMemory | cachememory.go:150-154 | For any store and any remote state with KEYS and DEL working, and any visiting orders: a permanent key survives a wildcard Expire on the memory store, while a key the server glob matches is deleted by the same Expire on the remote backend |

## Left out

- Snapshot persistence (`persistData`, `loadPersistentData`): gob encoding and file I/O whose failures are only logged. In the model they leave the map as it is, and a new memory store starts empty.
- The background sweep goroutine, its ticker and the `sync.RWMutex`. These are concurrency: each operation is one atomic step, and `gc` is a step the caller takes (`MemoryCache.Gc`). This also leaves out the race in which a concurrent Set can be overwritten by a stale tier-1 populate.
- Constructor option parsing: `url.Parse`, `u.Query()`, `strconv.Atoi` of `ttl` and `persist`, and the `u.String()` re-serialisation. These are foreign calls. The parse outcome (scheme or error) is an input of `NewMXCache`, and the URI text stands for `u.String()`. An invalid `ttl` option, which makes `newMemoryCache` fail, is therefore not modelled.
- `newRedisCache` (`redis.ParseURL`, client creation, `PING`). This is a `connect` parameter whose error aborts construction. The Go constructor returns a cache together with that error; the model keeps only the error.
- `filepath.Match` and Redis glob semantics. Both are parameters; glob syntax is not reimplemented.
- The gob codec of the Redis adapter. The one failure modelled is encoding a nil value. Every other encode or decode failure is folded into the failing GET or SET command. By the rules of `encoding/gob`, the adapter's own round trip probably always fails. Set encodes the concrete value (cacheredis.go:72), and Get decodes into an `*interface{}` (cacheredis.go:57), which gob accepts only from a value encoded as an interface. If so, GET of every value the adapter wrote returns an error. A tier-2 hit then needs a value stored in tier 2 some other way. The model does not separate this case from a GET failure.
- Passage of time inside Redis: remote keys are the live keys with their remaining TTL at the moment of the call. The TTL is kept in the whole seconds the server reports, so the sub-second part of a remote key's lifetime is not represented.
- Logging, and `persist_test.go`, which asserts nothing.
- Cache.Get: the `mem+redis` backend reads through the corrected `MemRedisCache.Get`, not `MemRedisCache.GetAsWritten`. So after a tier-2 hit, the tier-1 copy in the backend model has the corrected TTL (or is not made), where the program's copy gets the TTL multiplied by 10^9 (or none).
- MemoryCache.Set: integers are unbounded, so `ex * Second` does not wrap around as Go's 64-bit `time.Duration` does for `ex` above about 9.2·10^9 seconds.
- MemRedisCache.GetAsWritten: the tier-1 TTL `keyTTL * Second` is computed without 64-bit wrap-around. In Go, for remote TTLs of 10 s or more, the product wraps modulo 2^64. Some remote TTLs (10–18 s, 28–36 s, …) give a non-positive TTL and a permanent copy. The others give a positive TTL unrelated to the remote one (19 s gives about 17.5 years).
- MemRedisCache.GetAsWritten: the tier-2 GET and the TTL query are two round trips in Go, but one atomic step here. A key that expires or is deleted between them replies -2, which as written gives a permanent copy. The model cannot reach that reply on a tier-2 hit. The corrected `MemRedisCache.PopulateEx` maps -2 to "no copy".

## Findings

| source | as written | input that shows it | evidently intended | confidence | as-written member | corrected member |
|---|---|---|---|---|---|---|
| cachememredis.go:48-51 | After a tier-2 hit, tier 1 is filled with `c.mem.Set(key, val, int(keyTTL))`. `keyTTL` is a duration in nanoseconds, but `Set` reads its argument as seconds, so the copy's TTL is the remaining time multiplied by 10^9 | A remote key with 5 s left: the tier-1 copy gets 5·10^9 s and is still served 5 s later, after the remote key has expired (at 10 s or more the Go product wraps modulo 2^64: 10–18 s and 28–36 s give a permanent copy, while 19 s gives a positive TTL of about 17.5 years). The path needs a non-error tier-2 GET. For a value the adapter wrote itself, its gob round trip may never give one (see "## Left out"), so the value must have been stored in tier 2 some other way | The tier-1 copy expires with the remote key: `Set(key, val, int(keyTTL / time.Second))` | high; not executed | `MemRedisCache.GetAsWritten`, exhibited by `MemRedisCache.PopulateTtlUnitMismatch` | `MemRedisCache.Get`, proved by `MemRedisCache.PopulatedCopyExpiresWithRemote` |
| cachememredis.go:48-51 | A TTL reply of 0 is passed to `Set` as `ex` 0, which `Set` reads as "no expiry". Two cases give 0. Redis rounds TTL to the nearest second, so a live key with under half a second left replies 0. A failed query also reads as 0 through `Val()`. A key that went away between the GET and the TTL query replies -2, which `Set` also reads as "no expiry" | A remote key with 0.3 s left, a failing TTL query, or (outside the model's atomic step) a key deleted between GET and TTL: the tier-1 copy never expires and is served long after tier 2 has dropped the key | A copy that does not outlive the remote key. With no known lifetime, make no copy | medium; not executed | `MemRedisCache.GetAsWritten`, exhibited by `MemRedisCache.SubSecondKeyCachedForever` | `MemRedisCache.Get`, proved by `MemRedisCache.UnknownLifetimeNotCopied` |
