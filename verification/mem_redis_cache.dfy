/** The two-tier cache (`memRedisCache`): the in-process store in front of
    the remote service. Reads are cache-aside (tier 1 first; on a miss, read
    tier 2 and copy a hit into tier 1), writes are write-through (tier 1,
    then tier 2), and Expire goes to both tiers but answers with tier 2's
    result. The composite takes no lock of its own; each operation is one
    atomic step here. */
module MemRedisCache {
  import opened Base
  import MemoryCache
  import RemoteTier

  datatype Tiers = Tiers(mem: MemoryCache.Storage, remote: RemoteTier.Remote)

  /** The remaining TTL the tier-1 copy is populated from: the TTL query's
      duration, or 0 when the query fails (the failed command's value). */
  function KeyTtl(r: RemoteTier.Remote, key: string): int {
    match RemoteTier.Ttl(r, key)
    case Ok(d) => d
    case Err(_) => 0
  }

  /** The tier-1 populate as written: the duration (a nanosecond count) is
      passed unchanged where `Set` expects seconds, and the copy is always
      made. */
  function PopulateExAsWritten(keyTtl: int): Option<int> {
    Some(keyTtl)
  }

  /** The tier-1 populate, corrected: `Some(ex)` copies the value with `ex`
      as `Set`'s argument, `None` leaves tier 1 alone. A duration of whole
      seconds becomes those seconds and the no-expiry reply becomes
      "permanent". A zero duration (a live key with under half a second
      left, or a failed query) and the missing-key reply (the key went away
      between the read and the TTL query) give no lifetime the copy could
      safely have, so no copy is made. */
  function PopulateEx(keyTtl: int): (ex: Option<int>)
    ensures keyTtl == RemoteTier.NoExpiry ==> ex == Some(0)
    ensures keyTtl == RemoteTier.NoKey ==> ex.None?
    ensures keyTtl == 0 ==> ex.None?
    ensures ex.None? <==> keyTtl <= 0 && keyTtl != RemoteTier.NoExpiry
    ensures forall n: nat :: n > 0 && keyTtl == n * Second ==> ex == Some(n)
  {
    if keyTtl > 0 then Some(keyTtl / Second)
    else if keyTtl == RemoteTier.NoExpiry then Some(0)
    else None
  }

  /** What a Get returns: the possibly populated tiers and `(value, error)`. */
  datatype Read = Read(tiers: Tiers, result: Result<Datum>)

  /** The read path, with the populate decided by `exOf` from the remote
      TTL: `Some(ex)` sets tier 1 with `ex` seconds, `None` skips it. */
  function ReadThrough(t: Tiers, key: string, now: int, exOf: int -> Option<int>): Read {
    var hit := MemoryCache.Get(t.mem, key, now);
    if hit != Nil then Read(t, Ok(hit))
    else
      match RemoteTier.Get(t.remote, key)
      case Err(e) => Read(t, Err(e))
      case Ok(v) =>
        if v == Nil then Read(t, Ok(Nil))
        else
          match exOf(KeyTtl(t.remote, key))
          case None => Read(t, Ok(v))
          case Some(ex) => Read(Tiers(MemoryCache.Set(t.mem, key, v, ex, now), t.remote), Ok(v))
  }

  /** True when tier 1 misses and tier 2 holds a (non-nil) value for `key`. */
  predicate RemoteHit(t: Tiers, key: string, now: int) {
    && MemoryCache.Get(t.mem, key, now) == Nil
    && RemoteTier.Get(t.remote, key).Ok?
    && RemoteTier.Get(t.remote, key).value != Nil
  }

  /** `Get` as written. On a tier-1 hit the value is returned and tier 2 is
      not consulted. On a miss, a tier-2 error is returned and a tier-2 miss
      is not-found; neither touches tier 1. On a tier-2 hit, tier 1 is set
      with the raw remote TTL duration as its `ex` argument, so the copy's
      TTL is that duration times a second again, and a zero duration makes
      the copy permanent. */
  function GetAsWritten(t: Tiers, key: string, now: int): (r: Read)
    ensures MemoryCache.Get(t.mem, key, now) != Nil ==> r == Read(t, Ok(MemoryCache.Get(t.mem, key, now)))
    ensures MemoryCache.Get(t.mem, key, now) == Nil && RemoteTier.Get(t.remote, key).Err?
         ==> r == Read(t, RemoteTier.Get(t.remote, key))
    ensures MemoryCache.Get(t.mem, key, now) == Nil && RemoteTier.Get(t.remote, key) == Ok(Nil)
         ==> r == Read(t, Ok(Nil))
    ensures RemoteHit(t, key, now) ==> r.result == RemoteTier.Get(t.remote, key) && r.tiers.remote == t.remote
    ensures RemoteHit(t, key, now)
         ==> r.tiers.mem == MemoryCache.Set(t.mem, key, r.result.value, KeyTtl(t.remote, key), now)
    ensures RemoteHit(t, key, now) && KeyTtl(t.remote, key) > 0
         ==> r.tiers.mem[key].ex == KeyTtl(t.remote, key) * Second
    ensures RemoteHit(t, key, now) && KeyTtl(t.remote, key) <= 0 ==> r.tiers.mem[key].ex == 0
  {
    ReadThrough(t, key, now, PopulateExAsWritten)
  }

  /** The remote key's remaining lifetime is known well enough to copy the
      value: the TTL query works and does not report zero seconds. */
  predicate LifetimeKnown(r: RemoteTier.Remote, key: string)
    requires key in r.items
  {
    RemoteTier.TtlCmd !in r.failing && r.items[key].ttl != Some(0)
  }

  /** The TTL duration a correct populate gives the tier-1 copy of `key`: the
      remote key's remaining lifetime, or none when it has no expiry. */
  function PopulatedTtl(r: RemoteTier.Remote, key: string): int
    requires key in r.items
  {
    match r.items[key].ttl
    case None => 0
    case Some(n) => n * Second
  }

  /** `Get` with the populate corrected. The branches are those of
      `GetAsWritten`; on a tier-2 hit whose remaining lifetime is known, the
      tier-1 copy gets exactly that lifetime (none when the remote key has
      no expiry); otherwise the value is returned without a copy. */
  function Get(t: Tiers, key: string, now: int): (r: Read)
    ensures MemoryCache.Get(t.mem, key, now) != Nil ==> r == Read(t, Ok(MemoryCache.Get(t.mem, key, now)))
    ensures MemoryCache.Get(t.mem, key, now) == Nil && RemoteTier.Get(t.remote, key).Err?
         ==> r == Read(t, RemoteTier.Get(t.remote, key))
    ensures MemoryCache.Get(t.mem, key, now) == Nil && RemoteTier.Get(t.remote, key) == Ok(Nil)
         ==> r == Read(t, Ok(Nil))
    ensures RemoteHit(t, key, now) ==> r.result == RemoteTier.Get(t.remote, key) && r.tiers.remote == t.remote
    ensures RemoteHit(t, key, now) ==> key in t.remote.items
    ensures RemoteHit(t, key, now) && !LifetimeKnown(t.remote, key) ==> r.tiers == t
    ensures RemoteHit(t, key, now) && LifetimeKnown(t.remote, key) ==> r.tiers.mem.Keys == t.mem.Keys + {key}
    ensures RemoteHit(t, key, now) && LifetimeKnown(t.remote, key)
         ==> forall k :: k in t.mem && k != key ==> r.tiers.mem[k] == t.mem[k]
    ensures RemoteHit(t, key, now) && LifetimeKnown(t.remote, key)
         ==> r.tiers.mem[key] == MemoryCache.Entry(now, PopulatedTtl(t.remote, key), r.result.value)
  {
    ReadThrough(t, key, now, PopulateEx)
  }

  /** After a tier-2 hit with a known lifetime, the next Get of the same key
      at the same time is answered by tier 1 alone: whatever state tier 2 is
      in by then, even with every command failing, the same value comes back
      and nothing changes. */
  lemma SecondGetHitsTier1(t: Tiers, key: string, now: int, remote': RemoteTier.Remote)
    requires RemoteHit(t, key, now) && LifetimeKnown(t.remote, key)
    ensures Get(Tiers(Get(t, key, now).tiers.mem, remote'), key, now)
         == Read(Tiers(Get(t, key, now).tiers.mem, remote'), Get(t, key, now).result)
  {
  }

  /** The corrected tier-1 copy of a key with a remaining TTL of `n` seconds
      is served exactly while less than `n` seconds have passed: it expires
      together with the remote key. */
  lemma PopulatedCopyExpiresWithRemote(t: Tiers, key: string, now: int, later: int, n: nat)
    requires RemoteHit(t, key, now)
    requires RemoteTier.TtlCmd !in t.remote.failing
    requires t.remote.items[key].ttl == Some(n) && n > 0
    ensures MemoryCache.Get(Get(t, key, now).tiers.mem, key, later) != Nil
        <==> later - now < n * Second
  {
  }

  /** The corrected read never leaves a copy that could outlive the remote
      key: when the key reports zero seconds left or the TTL query fails,
      tier 1 stays as it was and a later read goes to tier 2 again. */
  lemma UnknownLifetimeNotCopied(t: Tiers, key: string, now: int, later: int)
    requires RemoteHit(t, key, now)
    requires RemoteTier.TtlCmd in t.remote.failing || t.remote.items[key].ttl == Some(0)
    ensures Get(t, key, now).tiers == t
    ensures MemoryCache.Get(Get(t, key, now).tiers.mem, key, later) == MemoryCache.Get(t.mem, key, later)
  {
  }

  /** What a Set returns: the new tiers and the error. */
  datatype Written = Written(tiers: Tiers, err: Option<Error>)

  /** `Set`, write-through: tier 1 is written first and unconditionally,
      then tier 2; only tier 2's error is returned. */
  function Set(t: Tiers, key: string, datum: Datum, ex: int, now: int): (w: Written)
    ensures w.tiers.mem == MemoryCache.Set(t.mem, key, datum, ex, now)
    ensures w.tiers.remote == RemoteTier.Set(t.remote, key, datum, ex).remote
    ensures w.err == RemoteTier.Set(t.remote, key, datum, ex).err
  {
    var remote := RemoteTier.Set(t.remote, key, datum, ex);
    Written(Tiers(MemoryCache.Set(t.mem, key, datum, ex, now), remote.remote), remote.err)
  }

  /** The partial-failure window of `Set`: when tier 2 rejects the write,
      the caller gets the error, tier 2 is unchanged, yet tier 1 already
      serves the new datum. */
  lemma SetPartialFailure(t: Tiers, key: string, datum: Datum, ex: int, now: int)
    requires RemoteTier.SetCmd in t.remote.failing
    ensures Set(t, key, datum, ex, now).err == Some(t.remote.failing[RemoteTier.SetCmd])
         || Set(t, key, datum, ex, now).err == Some(RemoteTier.NilValueError)
    ensures Set(t, key, datum, ex, now).tiers.remote == t.remote
    ensures MemoryCache.Get(Set(t, key, datum, ex, now).tiers.mem, key, now) == datum
  {
  }

  /** A successful write-through is read back at once, from tier 1. */
  lemma GetAfterSet(t: Tiers, key: string, datum: Datum, ex: int, now: int)
    requires datum != Nil
    ensures Get(Set(t, key, datum, ex, now).tiers, key, now).result == Ok(datum)
    ensures Get(Set(t, key, datum, ex, now).tiers, key, now).tiers == Set(t, key, datum, ex, now).tiers
  {
  }

  /** What an Expire returns: the new tiers, the key list and the error. */
  datatype Purge = Purge(tiers: Tiers, keys: seq<string>, err: Option<Error>)

  /** `Expire`: tier 1 is expired first and its own key list and error are
      dropped; tier 2 is expired next and its key list and error are what the
      caller gets. `memOrder` and `remoteOrder` are the visiting orders of
      the two tiers' keys. */
  function Expire(t: Tiers, pattern: string, glob: MemoryCache.PathMatch, memOrder: seq<string>,
                  serverGlob: RemoteTier.ServerMatch, remoteOrder: seq<string>): (r: Purge)
    requires Enumerates(memOrder, t.mem.Keys)
    requires Enumerates(remoteOrder, t.remote.items.Keys)
    ensures r.tiers.mem == MemoryCache.Expire(t.mem, pattern, glob, memOrder).cache
    ensures r.tiers.remote == RemoteTier.Expire(t.remote, pattern, serverGlob, remoteOrder).remote
    ensures r.keys == RemoteTier.Expire(t.remote, pattern, serverGlob, remoteOrder).keys
    ensures r.err == RemoteTier.Expire(t.remote, pattern, serverGlob, remoteOrder).err
  {
    var mem := MemoryCache.Expire(t.mem, pattern, glob, memOrder);
    var remote := RemoteTier.Expire(t.remote, pattern, serverGlob, remoteOrder);
    Purge(Tiers(mem.cache, remote.remote), remote.keys, remote.err)
  }

  /** Tier 1's match errors never reach the caller: with a working tier 2,
      a wildcard Expire succeeds even when every tier-1 match failed, and
      the matched tier-1 keys with a TTL are gone all the same. */
  lemma ExpireDropsTier1Errors(t: Tiers, pattern: string, glob: MemoryCache.PathMatch, memOrder: seq<string>,
                               serverGlob: RemoteTier.ServerMatch, remoteOrder: seq<string>)
    requires '*' in pattern
    requires Enumerates(memOrder, t.mem.Keys)
    requires Enumerates(remoteOrder, t.remote.items.Keys)
    requires RemoteTier.KeysCmd !in t.remote.failing && RemoteTier.DelCmd !in t.remote.failing
    ensures Expire(t, pattern, glob, memOrder, serverGlob, remoteOrder).err == None
    ensures forall k ::
              k in Expire(t, pattern, glob, memOrder, serverGlob, remoteOrder).tiers.mem
              <==> k in t.mem && !MemoryCache.Expirable(t.mem, pattern, glob, k)
  {
  }

  // ---------------------------------------------------------------------
  // Finding: the tier-1 populate's TTL unit
  // ---------------------------------------------------------------------

  /** As written, a key with 5 seconds left in tier 2 is copied into tier 1
      with a TTL of 5 * 10^9 seconds: 5 seconds later tier 2 has dropped the
      key but tier 1 still serves it. The corrected populate's copy is gone
      by then. (5 seconds keeps the product within Go's 64-bit durations.) */
  lemma PopulateTtlUnitMismatch(key: string, v: string, now: int)
    ensures var t := Tiers(map[], RemoteTier.Remote(map[key := RemoteTier.Item(Value(v), Some(5))], map[]));
      && GetAsWritten(t, key, now).tiers.mem[key].ex == 5 * Second * Second
      && MemoryCache.Get(GetAsWritten(t, key, now).tiers.mem, key, now + 5 * Second) == Value(v)
      && MemoryCache.Get(Get(t, key, now).tiers.mem, key, now + 5 * Second) == Nil
  {
  }

  /** As written, a remote key whose TTL query replies zero (under half a
      second left) or fails is copied into tier 1 for good: the copy is
      served at every later time, long after tier 2 has dropped the key. */
  lemma SubSecondKeyCachedForever(t: Tiers, key: string, now: int, later: int)
    requires RemoteHit(t, key, now)
    requires RemoteTier.TtlCmd in t.remote.failing || t.remote.items[key].ttl == Some(0)
    ensures MemoryCache.Get(GetAsWritten(t, key, now).tiers.mem, key, later) == GetAsWritten(t, key, now).result.value
  {
  }
}
