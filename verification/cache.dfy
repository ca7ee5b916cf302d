/** The cache abstraction (`MXCacher`): the backend chosen by a connection
    string's scheme, and the uniform Get / Set / Expire every backend
    answers. An empty connection string selects `nilCache`, which stores
    nothing. */
module Cache {
  import opened Base
  import MemoryCache
  import RemoteTier
  import MemRedisCache

  /** The constructors the scheme table can select. */
  datatype Backend = NewMemoryCache | NewRedisCache | NewMemRedisCache

  /** `cacheBackends`: scheme to constructor. */
  const CacheBackends: map<string, Backend> :=
    map["memory" := NewMemoryCache, "redis" := NewRedisCache, "mem+redis" := NewMemRedisCache]

  /** A constructed cache: the no-op cache or one of the three backends
      with its state. */
  datatype Cacher =
    | NilCache
    | Memory(store: MemoryCache.Storage)
    | Redis(remote: RemoteTier.Remote)
    | MemRedis(tiers: MemRedisCache.Tiers)

  /** The remote connection string of a composite URI: everything after its
      first `+`. */
  function RemoteUri(uri: string): (r: string)
    requires '+' in uri
    ensures |r| < |uri|
    ensures uri == uri[..|uri| - |r| - 1] + "+" + r
    ensures '+' !in uri[..|uri| - |r| - 1]
  {
    if uri[0] == '+' then uri[1..]
    else
      assert '+' in uri[1..] by {
        var i :| 0 <= i < |uri| && uri[i] == '+';
        assert uri[1..][i - 1] == '+';
      }
      var r := RemoteUri(uri[1..]);
      assert uri[1..][..|uri| - |r| - 2] == uri[1..|uri| - |r| - 1];
      r
  }

  /** For `scheme+rest` with no `+` in `scheme`, the remote connection string
      is `rest`. */
  lemma {:induction false} RemoteUriOfComposite(scheme: string, rest: string)
    requires '+' !in scheme
    ensures RemoteUri(scheme + "+" + rest) == rest
  {
    var uri := scheme + "+" + rest;
    if |scheme| == 0 {
      assert uri == "+" + rest;
    } else {
      assert uri[0] == scheme[0];
      assert uri[1..] == scheme[1..] + "+" + rest;
      RemoteUriOfComposite(scheme[1..], rest);
    }
  }

  /** Runs the constructor the table selected. `connect` stands for building
      a remote client from a connection string and checking it is alive; its
      error aborts construction. The memory store starts empty. */
  function Create(b: Backend, uri: string, connect: string -> Result<RemoteTier.Remote>): Result<Cacher>
    requires b == NewMemRedisCache ==> '+' in uri
  {
    match b
    case NewMemoryCache => Ok(Memory(map[]))
    case NewRedisCache =>
      (match connect(uri)
       case Err(e) => Err(e)
       case Ok(r) => Ok(Redis(r)))
    case NewMemRedisCache =>
      (match connect(RemoteUri(uri))
       case Err(e) => Err(e)
       case Ok(r) => Ok(MemRedis(MemRedisCache.Tiers(map[], r))))
  }

  /** `NewMXCache`. `parsed` is the outcome of parsing `uri`: its scheme, or
      the parse error. An empty connection string gives the no-op cache; an
      unknown scheme is an error naming it; otherwise the scheme's
      constructor runs, the composite one on the text after the first `+`. */
  function NewMXCache(uri: string, parsed: Result<string>, connect: string -> Result<RemoteTier.Remote>): (r: Result<Cacher>)
    requires uri != "" && parsed == Ok("mem+redis") ==> '+' in uri
    ensures uri == "" ==> r == Ok(NilCache)
    ensures uri != "" && parsed.Err? ==> r == Err(parsed.error)
    ensures uri != "" && parsed.Ok? && parsed.value !in CacheBackends
         ==> r == Err(Error("invalid cache backend " + parsed.value))
    ensures r.Ok? && uri != "" ==> parsed.Ok? && parsed.value in CacheBackends
    ensures uri != "" && parsed == Ok("memory") ==> r == Ok(Memory(map[]))
    ensures uri != "" && parsed == Ok("redis") && connect(uri).Ok? ==> r == Ok(Redis(connect(uri).value))
    ensures uri != "" && parsed == Ok("redis") && connect(uri).Err? ==> r == Err(connect(uri).error)
    ensures uri != "" && parsed == Ok("mem+redis") && connect(RemoteUri(uri)).Ok?
         ==> r == Ok(MemRedis(MemRedisCache.Tiers(map[], connect(RemoteUri(uri)).value)))
    ensures uri != "" && parsed == Ok("mem+redis") && connect(RemoteUri(uri)).Err?
         ==> r == Err(connect(RemoteUri(uri)).error)
  {
    if uri == "" then Ok(NilCache)
    else
      match parsed
      case Err(e) => Err(e)
      case Ok(scheme) =>
        if scheme !in CacheBackends then Err(Error("invalid cache backend " + scheme))
        else Create(CacheBackends[scheme], uri, connect)
  }

  /** The table selects exactly the three schemes, each to its own
      constructor. */
  lemma BackendTable(scheme: string)
    ensures scheme in CacheBackends <==> scheme == "memory" || scheme == "redis" || scheme == "mem+redis"
    ensures CacheBackends.Values == {NewMemoryCache, NewRedisCache, NewMemRedisCache}
    ensures CacheBackends["memory"] == NewMemoryCache
    ensures CacheBackends["redis"] == NewRedisCache
    ensures CacheBackends["mem+redis"] == NewMemRedisCache
  {
    assert CacheBackends["memory"] == NewMemoryCache;
    assert CacheBackends["redis"] == NewRedisCache;
    assert CacheBackends["mem+redis"] == NewMemRedisCache;
  }

  /** What a Get returns: the cache afterwards and `(value, error)`. */
  datatype Reply = Reply(cache: Cacher, result: Result<Datum>)

  /** `Get` on any backend. Only the composite's read can change state (it
      populates tier 1); the memory store never fails and the no-op cache
      always reports not-found. */
  function Get(c: Cacher, key: string, now: int): (r: Reply)
    ensures !c.MemRedis? ==> r.cache == c
    ensures c.MemRedis? ==> r.cache.MemRedis? && r.cache.tiers.remote == c.tiers.remote
    ensures c.NilCache? ==> r.result == Ok(Nil)
    ensures c.Memory? ==> r.result == Ok(MemoryCache.Get(c.store, key, now))
    ensures c.Redis? ==> r.result == RemoteTier.Get(c.remote, key)
    ensures c.MemRedis? ==> r == Reply(MemRedis(MemRedisCache.Get(c.tiers, key, now).tiers),
                                       MemRedisCache.Get(c.tiers, key, now).result)
  {
    match c
    case NilCache => Reply(c, Ok(Nil))
    case Memory(store) => Reply(c, Ok(MemoryCache.Get(store, key, now)))
    case Redis(remote) => Reply(c, RemoteTier.Get(remote, key))
    case MemRedis(tiers) =>
      var read := MemRedisCache.Get(tiers, key, now);
      Reply(MemRedis(read.tiers), read.result)
  }

  /** What a Set returns: the cache afterwards and the error. */
  datatype Stored = Stored(cache: Cacher, err: Option<Error>)

  /** `Set` on any backend: the backend kind never changes, the no-op cache
      and the memory store never fail, and the no-op cache stays as it is. */
  function Set(c: Cacher, key: string, datum: Datum, ex: int, now: int): (r: Stored)
    ensures r.cache.NilCache? == c.NilCache? && r.cache.Memory? == c.Memory?
    ensures r.cache.Redis? == c.Redis? && r.cache.MemRedis? == c.MemRedis?
    ensures c.NilCache? ==> r == Stored(NilCache, None)
    ensures c.Memory? ==> r == Stored(Memory(MemoryCache.Set(c.store, key, datum, ex, now)), None)
    ensures c.Redis? ==> r == Stored(Redis(RemoteTier.Set(c.remote, key, datum, ex).remote),
                                     RemoteTier.Set(c.remote, key, datum, ex).err)
    ensures c.MemRedis? ==> r.cache.tiers.mem == MemoryCache.Set(c.tiers.mem, key, datum, ex, now)
    ensures c.MemRedis? ==> r.cache.tiers.remote == RemoteTier.Set(c.tiers.remote, key, datum, ex).remote
    ensures c.MemRedis? ==> r.err == RemoteTier.Set(c.tiers.remote, key, datum, ex).err
  {
    match c
    case NilCache => Stored(c, None)
    case Memory(store) => Stored(Memory(MemoryCache.Set(store, key, datum, ex, now)), None)
    case Redis(remote) =>
      var w := RemoteTier.Set(remote, key, datum, ex);
      Stored(Redis(w.remote), w.err)
    case MemRedis(tiers) =>
      var w := MemRedisCache.Set(tiers, key, datum, ex, now);
      Stored(MemRedis(w.tiers), w.err)
  }

  /** `memOrder` and `remoteOrder` enumerate the keys the backend of `c`
      holds in its in-process store and in the remote service. */
  ghost predicate Visits(c: Cacher, memOrder: seq<string>, remoteOrder: seq<string>) {
    && (c.Memory? ==> Enumerates(memOrder, c.store.Keys))
    && (c.Redis? ==> Enumerates(remoteOrder, c.remote.items.Keys))
    && (c.MemRedis? ==> Enumerates(memOrder, c.tiers.mem.Keys) && Enumerates(remoteOrder, c.tiers.remote.items.Keys))
  }

  /** What an Expire returns: the cache afterwards, the key list, the error. */
  datatype Purged = Purged(cache: Cacher, keys: seq<string>, err: Option<Error>)

  /** `Expire` on any backend. The no-op cache reports an empty key list and
      no error; a pattern without `*` is reported back as the one expired
      key by every real backend. */
  function Expire(c: Cacher, pattern: string, glob: MemoryCache.PathMatch, memOrder: seq<string>,
                  serverGlob: RemoteTier.ServerMatch, remoteOrder: seq<string>): (r: Purged)
    requires Visits(c, memOrder, remoteOrder)
    ensures c.NilCache? ==> r == Purged(NilCache, [], None)
    ensures !c.NilCache? && '*' !in pattern ==> r.keys == [pattern]
    ensures c.Memory? && '*' !in pattern ==> r.err == None
    ensures c.Memory? ==> r.cache == Memory(MemoryCache.Expire(c.store, pattern, glob, memOrder).cache)
    ensures c.Memory? ==> r.keys == MemoryCache.Expire(c.store, pattern, glob, memOrder).keys
    ensures c.Memory? ==> r.err == MemoryCache.Expire(c.store, pattern, glob, memOrder).err
    ensures c.Redis? ==> r == Purged(Redis(RemoteTier.Expire(c.remote, pattern, serverGlob, remoteOrder).remote),
                                     RemoteTier.Expire(c.remote, pattern, serverGlob, remoteOrder).keys,
                                     RemoteTier.Expire(c.remote, pattern, serverGlob, remoteOrder).err)
    ensures c.MemRedis? ==> r.cache.MemRedis?
    ensures c.MemRedis? ==> r.cache.tiers.mem == MemoryCache.Expire(c.tiers.mem, pattern, glob, memOrder).cache
    ensures c.MemRedis? ==> r.cache.tiers.remote == RemoteTier.Expire(c.tiers.remote, pattern, serverGlob, remoteOrder).remote
    ensures c.MemRedis? ==> r.keys == RemoteTier.Expire(c.tiers.remote, pattern, serverGlob, remoteOrder).keys
    ensures c.MemRedis? ==> r.err == RemoteTier.Expire(c.tiers.remote, pattern, serverGlob, remoteOrder).err
  {
    match c
    case NilCache => Purged(c, [], None)
    case Memory(store) =>
      var e := MemoryCache.Expire(store, pattern, glob, memOrder);
      Purged(Memory(e.cache), e.keys, e.err)
    case Redis(remote) =>
      var d := RemoteTier.Expire(remote, pattern, serverGlob, remoteOrder);
      Purged(Redis(d.remote), d.keys, d.err)
    case MemRedis(tiers) =>
      var e := MemRedisCache.Expire(tiers, pattern, glob, memOrder, serverGlob, remoteOrder);
      Purged(MemRedis(e.tiers), e.keys, e.err)
  }

  /** An empty connection string disables caching without an error: every
      read is a miss, every write and expiry succeeds and changes nothing. */
  lemma EmptyUriDisablesCaching(parsed: Result<string>, connect: string -> Result<RemoteTier.Remote>,
                                key: string, datum: Datum, ex: int, now: int, pattern: string,
                                glob: MemoryCache.PathMatch, serverGlob: RemoteTier.ServerMatch)
    ensures NewMXCache("", parsed, connect) == Ok(NilCache)
    ensures Get(NilCache, key, now) == Reply(NilCache, Ok(Nil))
    ensures Set(NilCache, key, datum, ex, now) == Stored(NilCache, None)
    ensures Expire(NilCache, pattern, glob, [], serverGlob, []) == Purged(NilCache, [], None)
  {
  }

  /** The memory and remote backends differ on wildcard Expire of a
      permanent key that the pattern matches: the memory store keeps it,
      the remote backend (with KEYS and DEL working) deletes it. */
  lemma PermanentKeysSurviveOnlyInMemory(c: MemoryCache.Storage, remote: RemoteTier.Remote, key: string,
                                         pattern: string, glob: MemoryCache.PathMatch, memOrder: seq<string>,
                                         serverGlob: RemoteTier.ServerMatch, remoteOrder: seq<string>)
    requires '*' in pattern
    requires key in c && c[key].ex == 0 && Enumerates(memOrder, c.Keys)
    requires key in remote.items && serverGlob(pattern, key) && Enumerates(remoteOrder, remote.items.Keys)
    requires RemoteTier.KeysCmd !in remote.failing && RemoteTier.DelCmd !in remote.failing
    ensures key in Expire(Memory(c), pattern, glob, memOrder, serverGlob, remoteOrder).cache.store
    ensures key !in Expire(Redis(remote), pattern, glob, memOrder, serverGlob, remoteOrder).cache.remote.items
  {
  }
}
