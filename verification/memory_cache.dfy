/** The in-process TTL store (`memoryCache`): a map from key to entry, read
    with a lazy expiry check, written by `Set`, cleared by exact or wildcard
    `Expire` and by the periodic sweep `gc`.

    Every operation runs under one lock, so each is one atomic step here: a
    pure function from the old map to the new one. The clock is the explicit
    argument `now`. Snapshot persistence, which only logs its failures, leaves
    the map as it is and is not represented. */
module MemoryCache {
  import opened Base

  /** The `cit` record: when the entry was stored, its time-to-live as a
      duration (0 means it never expires by time), and the datum. */
  datatype Entry = Entry(tstamp: int, ex: int, datum: Datum)

  /** `cacheStorage`: key to entry. */
  type Storage = map<string, Entry>

  /** What `filepath.Match(pattern, key)` answers: a verdict, or the error a
      malformed pattern produces. Glob syntax itself is not modelled. */
  type PathMatch = (string, string) -> Result<bool>

  /** An entry is logically expired once it has a TTL and at least that much
      time has passed since it was stored. */
  predicate Expired(e: Entry, now: int) {
    e.ex > 0 && now - e.tstamp >= e.ex
  }

  // ---------------------------------------------------------------------
  // ExpireErrors: the errors one wildcard Expire collects
  // ---------------------------------------------------------------------

  function Messages(errs: seq<Error>): seq<string> {
    seq(|errs|, i requires 0 <= i < |errs| => errs[i].msg)
  }

  /** Reference definition of the combined message: the messages in order,
      separated by ", ". */
  function Join(msgs: seq<string>): string {
    if |msgs| == 0 then ""
    else if |msgs| == 1 then msgs[0]
    else msgs[0] + ", " + Join(msgs[1..])
  }

  /** Appending one message extends the joined text by a separator and that
      message. */
  lemma {:induction false} JoinSnoc(msgs: seq<string>, m: string)
    requires |msgs| > 0
    ensures Join(msgs + [m]) == Join(msgs) + ", " + m
  {
    if |msgs| == 1 {
      assert msgs + [m] == [msgs[0], m];
      assert (msgs + [m])[1..] == [m];
    } else {
      assert (msgs + [m])[1..] == msgs[1..] + [m];
      JoinSnoc(msgs[1..], m);
    }
  }

  /** The joined text never ends in a separator: it ends in the last message,
      and its length is the messages' lengths plus two per separator. */
  lemma {:induction false} JoinNoTrailingSeparator(msgs: seq<string>)
    requires |msgs| > 0
    ensures |Join(msgs)| >= |msgs[|msgs| - 1]|
    ensures Join(msgs)[|Join(msgs)| - |msgs[|msgs| - 1]|..] == msgs[|msgs| - 1]
    ensures |Join(msgs)| == TotalLength(msgs) + 2 * (|msgs| - 1)
  {
    if |msgs| > 1 {
      JoinNoTrailingSeparator(msgs[1..]);
      assert msgs[1..][|msgs[1..]| - 1] == msgs[|msgs| - 1];
    }
  }

  function TotalLength(msgs: seq<string>): nat {
    if |msgs| == 0 then 0 else |msgs[0]| + TotalLength(msgs[1..])
  }

  /** `ExpireErrors.Error`: writes each message and, after every one but the
      last, the separator. */
  method ErrorMessage(errs: seq<Error>) returns (s: string)
    ensures s == Join(Messages(errs))
  {
    var msgs := Messages(errs);
    s := "";
    var last := |errs| - 1;
    var i := 0;
    while i < |errs|
      invariant 0 <= i <= |errs|
      invariant s == if i == 0 then "" else Join(msgs[..i]) + (if i <= last then ", " else "")
    {
      if i > 0 {
        JoinSnoc(msgs[..i], msgs[i]);
      }
      assert msgs[..i + 1] == msgs[..i] + [msgs[i]];
      s := s + errs[i].msg;
      if i < last {
        s := s + ", ";
      }
      i := i + 1;
    }
    assert msgs[..i] == msgs;
  }

  /** `ExpireErrors.Err`: no error when nothing was collected, otherwise one
      error whose message joins the collected ones. */
  function CombinedError(errs: seq<Error>): (r: Option<Error>)
    ensures r.None? <==> |errs| == 0
    ensures r.Some? ==> r.value.msg == Join(Messages(errs))
  {
    if |errs| > 0 then Some(Error(Join(Messages(errs)))) else None
  }

  // ---------------------------------------------------------------------
  // Set and Get
  // ---------------------------------------------------------------------

  /** `Set`: store `datum` under `key`, stamped `now`, replacing any previous
      entry. A positive `ex` is a TTL in seconds; zero or less means the entry
      is permanent. The Go method always returns a nil error, so only the new
      map is returned. */
  function Set(c: Storage, key: string, datum: Datum, ex: int, now: int): (c': Storage)
    ensures key in c' && c'[key].tstamp == now && c'[key].datum == datum
    ensures ex <= 0 ==> c'[key].ex == 0
    ensures ex > 0 ==> c'[key].ex == ex * Second
    ensures c'.Keys == c.Keys + {key}
    ensures forall k :: k in c && k != key ==> c'[k] == c[k]
  {
    var ttl := if ex > 0 then ex * Second else 0;
    c[key := Entry(now, ttl, datum)]
  }

  /** `Get`: the stored datum, or `Nil` (not found, no error) when the key is
      absent or its entry is logically expired. The map is only read. */
  function Get(c: Storage, key: string, now: int): (d: Datum)
    ensures key !in c ==> d == Nil
    ensures key in c && Expired(c[key], now) ==> d == Nil
    ensures key in c && !Expired(c[key], now) ==> d == c[key].datum
  {
    if key !in c then Nil
    else if Expired(c[key], now) then Nil
    else c[key].datum
  }

  /** Reading a key at the time it was written returns the datum written. */
  lemma GetAfterSet(c: Storage, key: string, datum: Datum, ex: int, now: int)
    ensures Get(Set(c, key, datum, ex, now), key, now) == datum
  {
  }

  /** A permanent entry is returned at every later time; an entry with a TTL
      of `ex` seconds is returned while less than `ex` seconds have passed
      and reads as not found from then on. */
  lemma GetAfterSetLater(c: Storage, key: string, datum: Datum, ex: int, now: int, later: int)
    requires now <= later
    ensures ex <= 0 ==> Get(Set(c, key, datum, ex, now), key, later) == datum
    ensures ex > 0 && later - now < ex * Second ==> Get(Set(c, key, datum, ex, now), key, later) == datum
    ensures ex > 0 && later - now >= ex * Second ==> Get(Set(c, key, datum, ex, now), key, later) == Nil
  {
  }

  /** Writing one key is invisible to reads of every other key. */
  lemma SetKeepsOtherKeys(c: Storage, key: string, other: string, datum: Datum, ex: int, now: int, at: int)
    requires other != key
    ensures Get(Set(c, key, datum, ex, now), other, at) == Get(c, other, at)
  {
  }

  // ---------------------------------------------------------------------
  // Expire
  // ---------------------------------------------------------------------

  /** A key a wildcard Expire removes: stored, matched without error, and
      carrying a TTL. Permanent entries are spared. */
  ghost predicate Expirable(c: Storage, pattern: string, glob: PathMatch, k: string) {
    k in c && glob(pattern, k) == Ok(true) && c[k].ex > 0
  }

  /** The match errors met while visiting `order`, in visiting order. */
  function MatchErrors(pattern: string, glob: PathMatch, order: seq<string>): seq<Error> {
    if |order| == 0 then []
    else
      var here := match glob(pattern, order[0])
        case Err(e) => [e]
        case Ok(_) => [];
      here + MatchErrors(pattern, glob, order[1..])
  }

  /** Some match error was met exactly when some visited key's match failed. */
  lemma {:induction false} MatchErrorsEmptyIff(pattern: string, glob: PathMatch, order: seq<string>)
    ensures |MatchErrors(pattern, glob, order)| > 0 <==> exists k :: k in order && glob(pattern, k).Err?
  {
    if |order| > 0 {
      MatchErrorsEmptyIff(pattern, glob, order[1..]);
      if glob(pattern, order[0]).Err? {
        assert order[0] in order;
      } else {
        forall k | k in order && glob(pattern, k).Err?
          ensures k in order[1..]
        {
          var i :| 0 <= i < |order| && order[i] == k;
          assert i != 0;
        }
      }
    }
  }

  /** State of the `range` loop of a wildcard Expire: the map so far, the
      keys deleted and the errors collected. */
  datatype Sweep = Sweep(cache: Storage, keys: seq<string>, errs: seq<Error>)

  /** The `range` loop of a wildcard Expire over the keys in `order`: a key
      whose match fails contributes its error, a matched key with a TTL is
      deleted and reported, every other key is left alone. */
  function Scan(c: Storage, pattern: string, glob: PathMatch, order: seq<string>): (r: Sweep)
    requires NoDuplicates(order)
    requires forall k :: k in order ==> k in c
    ensures forall k :: k in r.cache <==> k in c && !(k in order && Expirable(c, pattern, glob, k))
    ensures forall k :: k in r.cache ==> r.cache[k] == c[k]
    ensures forall k :: k in r.keys <==> k in order && Expirable(c, pattern, glob, k)
    ensures NoDuplicates(r.keys)
    ensures r.errs == MatchErrors(pattern, glob, order)
    ensures (forall k :: k in order ==> !Expirable(c, pattern, glob, k)) ==> r.cache == c && r.keys == []
    decreases |order|
  {
    if |order| == 0 then Sweep(c, [], [])
    else
      var k := order[0];
      assert forall j :: 0 <= j < |order| - 1 ==> order[1..][j] == order[j + 1];
      match glob(pattern, k)
      case Err(e) =>
        var r := Scan(c, pattern, glob, order[1..]);
        Sweep(r.cache, r.keys, [e] + r.errs)
      case Ok(matched) =>
        if matched && c[k].ex > 0 then
          var r := Scan(c - {k}, pattern, glob, order[1..]);
          assert k !in order[1..];
          Sweep(r.cache, [k] + r.keys, r.errs)
        else
          Scan(c, pattern, glob, order[1..])
  }

  /** What an Expire returns: the new map, the expired keys and the error. */
  datatype Expiry = Expiry(cache: Storage, keys: seq<string>, err: Option<Error>)

  /** `Expire`. A pattern without `*` names one key: it is deleted whatever
      its TTL, and reported as expired with no error even when it was absent.
      A pattern with `*` is matched against every stored key (visited in
      `order`): matched keys with a TTL are deleted and reported, permanent
      ones and non-matches stay, and the match errors are combined into one. */
  function Expire(c: Storage, pattern: string, glob: PathMatch, order: seq<string>): (r: Expiry)
    requires Enumerates(order, c.Keys)
    ensures '*' !in pattern ==> r.keys == [pattern] && r.err == None
    ensures '*' !in pattern ==> pattern !in r.cache
    ensures '*' !in pattern ==> forall k :: k != pattern ==> (k in r.cache <==> k in c)
    ensures '*' in pattern ==> forall k :: k in r.cache <==> k in c && !Expirable(c, pattern, glob, k)
    ensures '*' in pattern ==> forall k :: k in r.keys <==> Expirable(c, pattern, glob, k)
    ensures '*' in pattern ==> NoDuplicates(r.keys)
    ensures '*' in pattern ==> (r.err.Some? <==> exists k :: k in c && glob(pattern, k).Err?)
    ensures '*' in pattern ==> r.err == CombinedError(MatchErrors(pattern, glob, order))
    ensures '*' in pattern && (forall k :: k in c ==> !Expirable(c, pattern, glob, k)) ==> r.cache == c && r.keys == []
    ensures forall k :: k in r.cache ==> r.cache[k] == c[k]
  {
    if '*' !in pattern then
      Expiry(c - {pattern}, [pattern], None)
    else
      var s := Scan(c, pattern, glob, order);
      MatchErrorsEmptyIff(pattern, glob, order);
      Expiry(s.cache, s.keys, CombinedError(s.errs))
  }

  /** Exact Expire is idempotent: a second call with the same key changes
      nothing more and answers the same. */
  lemma ExactExpireIdempotent(c: Storage, pattern: string, glob: PathMatch, order: seq<string>, order': seq<string>)
    requires '*' !in pattern
    requires Enumerates(order, c.Keys)
    requires Enumerates(order', Expire(c, pattern, glob, order).cache.Keys)
    ensures Expire(Expire(c, pattern, glob, order).cache, pattern, glob, order') == Expire(c, pattern, glob, order)
  {
  }

  /** After a wildcard Expire no stored key is left for the same pattern to
      remove. */
  lemma NothingLeftToExpire(c: Storage, pattern: string, glob: PathMatch, order: seq<string>, k: string)
    requires '*' in pattern
    requires Enumerates(order, c.Keys)
    ensures !Expirable(Expire(c, pattern, glob, order).cache, pattern, glob, k)
  {
  }

  /** A second wildcard Expire with the same pattern deletes nothing and
      reports no key. */
  lemma WildcardExpireIdempotent(c: Storage, pattern: string, glob: PathMatch, order: seq<string>, order': seq<string>)
    requires '*' in pattern
    requires Enumerates(order, c.Keys)
    requires Enumerates(order', Expire(c, pattern, glob, order).cache.Keys)
    ensures Expire(Expire(c, pattern, glob, order).cache, pattern, glob, order').cache
         == Expire(c, pattern, glob, order).cache
    ensures Expire(Expire(c, pattern, glob, order).cache, pattern, glob, order').keys == []
  {
  }

  /** Match errors do not depend on what was deleted: repeating a wildcard
      Expire fails exactly when the first one did. */
  lemma WildcardExpireErrorsPersist(c: Storage, pattern: string, glob: PathMatch, order: seq<string>, order': seq<string>)
    requires '*' in pattern
    requires Enumerates(order, c.Keys)
    requires Enumerates(order', Expire(c, pattern, glob, order).cache.Keys)
    ensures Expire(Expire(c, pattern, glob, order).cache, pattern, glob, order').err.Some?
         <==> Expire(c, pattern, glob, order).err.Some?
  {
  }

  // ---------------------------------------------------------------------
  // gc: the periodic sweep
  // ---------------------------------------------------------------------

  /** `gc` at time `now`: every logically expired entry is deleted, every
      other entry is kept as it was. Deleting the visited key while ranging
      over a Go map does not disturb the other keys, so the loop's effect is
      this filter whatever the visiting order. */
  function Gc(c: Storage, now: int): (c': Storage)
    ensures forall k :: k in c' <==> k in c && !Expired(c[k], now)
    ensures forall k :: k in c' ==> c'[k] == c[k]
  {
    map k | k in c && !Expired(c[k], now) :: c[k]
  }

  /** The clock readings of one sweep never go backwards. */
  ghost predicate Nondecreasing(times: seq<int>) {
    forall i, j :: 0 <= i <= j < |times| ==> times[i] <= times[j]
  }

  /** The `range` loop of `gc`, visiting the keys in `order` and deleting
      each one that is expired at the clock reading `times[i]` taken when it
      is reached. Since the clock moves during the sweep, the result lies
      between the sweep at the first reading and the sweep at the last; on
      a clock that does not move it is exactly `Gc`. */
  method GcLoop(c: Storage, order: seq<string>, times: seq<int>) returns (c': Storage)
    requires Enumerates(order, c.Keys)
    requires |times| == |order| && Nondecreasing(times)
    ensures forall i :: 0 <= i < |order| ==> (order[i] in c' <==> !Expired(c[order[i]], times[i]))
    ensures forall k :: k in c' ==> k in c && c'[k] == c[k]
    ensures |order| == 0 ==> c' == c
    ensures |order| > 0 ==> Gc(c, times[|times| - 1]).Keys <= c'.Keys <= Gc(c, times[0]).Keys
    ensures |order| > 0 && times[0] == times[|times| - 1] ==> c' == Gc(c, times[0])
  {
    c' := c;
    var i := 0;
    while i < |order|
      invariant 0 <= i <= |order|
      invariant forall j :: 0 <= j < i ==> (order[j] in c' <==> !Expired(c[order[j]], times[j]))
      invariant forall k :: k in c && k !in order[..i] ==> k in c'
      invariant forall k :: k in c' ==> k in c && c'[k] == c[k]
    {
      var k := order[i];
      assert k !in order[..i];
      assert order[..i + 1] == order[..i] + [k];
      if Expired(c'[k], times[i]) {
        c' := c' - {k};
      }
      i := i + 1;
    }
    assert order[..i] == order;
    if |order| > 0 {
      forall k | k in c'
        ensures k in Gc(c, times[0])
      {
        var j :| 0 <= j < |order| && order[j] == k;
      }
      forall k | k in Gc(c, times[|times| - 1])
        ensures k in c'
      {
        var j :| 0 <= j < |order| && order[j] == k;
      }
    }
  }

  /** A second sweep at the same time changes nothing. */
  lemma GcIdempotent(c: Storage, now: int)
    ensures Gc(Gc(c, now), now) == Gc(c, now)
  {
  }

  /** An earlier sweep is subsumed by a later one: expiry is permanent once
      reached. */
  lemma GcAbsorbsEarlier(c: Storage, t1: int, t2: int)
    requires t1 <= t2
    ensures Gc(Gc(c, t1), t2) == Gc(c, t2)
  {
  }

  /** Sweeping is unobservable to readers at the same time: it removes only
      entries `Get` already reports as not found. */
  lemma GcInvisibleToGet(c: Storage, now: int, key: string)
    ensures Get(Gc(c, now), key, now) == Get(c, key, now)
  {
  }
}
