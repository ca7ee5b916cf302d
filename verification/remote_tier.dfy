/** The remote tier (`redisCache`), kept abstract: the live keys of an
    external expiring key-value service, each with its remaining TTL, plus
    the commands that currently fail. Only what the two-tier cache relies on
    is modelled: read, write with TTL, delete by key or by server-side glob,
    and the remaining-TTL query. */
module RemoteTier {
  import opened Base

  /** The service commands the adapter issues. */
  datatype Command = GetCmd | SetCmd | DelCmd | KeysCmd | TtlCmd

  /** A stored value and its remaining lifetime: `None` for a key without
      expiry, otherwise `Some(n)` with `n` the whole seconds the service
      reports. The service rounds to the nearest second, so a live key with
      less than half a second left reports `Some(0)`. */
  datatype Item = Item(datum: Datum, ttl: Option<nat>)

  /** The service's state: its live keys, and the error each failing command
      returns (a transport or protocol failure, or a value codec failure). */
  datatype Remote = Remote(items: map<string, Item>, failing: map<Command, Error>)

  /** The server-side glob `KEYS` applies. It never reports an error. */
  type ServerMatch = (string, string) -> bool

  /** Replies of the TTL query for a key with no expiry and for a missing
      key, as the service reports them. */
  const NoExpiry: int := -1
  const NoKey: int := -2

  /** The error a nil value produces when the adapter encodes it. */
  const NilValueError: Error := Error("gob: cannot encode nil value")

  /** `Get`: the stored datum, `Nil` with no error for a missing key, or the
      command's error. */
  function Get(r: Remote, key: string): (res: Result<Datum>)
    ensures GetCmd in r.failing ==> res == Err(r.failing[GetCmd])
    ensures GetCmd !in r.failing ==> res.Ok?
    ensures res.Ok? && key !in r.items ==> res.value == Nil
    ensures res.Ok? && key in r.items ==> res.value == r.items[key].datum
  {
    if GetCmd in r.failing then Err(r.failing[GetCmd])
    else if key !in r.items then Ok(Nil)
    else Ok(r.items[key].datum)
  }

  /** Outcome of a write or delete: the new state and the error returned. */
  datatype Write = Write(remote: Remote, err: Option<Error>)

  /** `Set`: store `datum` with a TTL of `ex` seconds (none when `ex <= 0`).
      A nil value cannot be encoded and a failing command stores nothing. */
  function Set(r: Remote, key: string, datum: Datum, ex: int): (w: Write)
    ensures w.err.None? <==> datum != Nil && SetCmd !in r.failing
    ensures w.err.Some? ==> w.remote == r
    ensures w.err.None? && ex > 0 ==> w.remote.items == r.items[key := Item(datum, Some(ex))]
    ensures w.err.None? && ex <= 0 ==> w.remote.items == r.items[key := Item(datum, None)]
    ensures w.remote.failing == r.failing
  {
    if datum == Nil then Write(r, Some(NilValueError))
    else if SetCmd in r.failing then Write(r, Some(r.failing[SetCmd]))
    else Write(r.(items := r.items[key := Item(datum, if ex > 0 then Some(ex) else None)]), None)
  }

  /** The TTL query, as a duration: the remaining seconds scaled to
      nanoseconds, or the `NoExpiry` / `NoKey` reply left unscaled. */
  function Ttl(r: Remote, key: string): (res: Result<int>)
    ensures TtlCmd in r.failing <==> res.Err?
    ensures res.Ok? && key !in r.items ==> res.value == NoKey
    ensures res.Ok? && key in r.items && r.items[key].ttl.None? ==> res.value == NoExpiry
    ensures res.Ok? && key in r.items && r.items[key].ttl.Some? ==> res.value == r.items[key].ttl.value * Second
  {
    if TtlCmd in r.failing then Err(r.failing[TtlCmd])
    else if key !in r.items then Ok(NoKey)
    else
      match r.items[key].ttl
      case None => Ok(NoExpiry)
      case Some(n) => Ok(n * Second)
  }

  /** The keys of `order` the server glob matches, in that order. */
  function Matching(order: seq<string>, pattern: string, glob: ServerMatch): (ks: seq<string>)
    requires NoDuplicates(order)
    ensures forall k :: k in ks <==> k in order && glob(pattern, k)
    ensures NoDuplicates(ks)
  {
    if |order| == 0 then []
    else
      assert forall j :: 0 <= j < |order| - 1 ==> order[1..][j] == order[j + 1];
      var rest := Matching(order[1..], pattern, glob);
      if glob(pattern, order[0]) then [order[0]] + rest else rest
  }

  /** Outcome of an Expire: the new state, the key list and the error. */
  datatype Deletion = Deletion(remote: Remote, keys: seq<string>, err: Option<Error>)

  /** `Expire`. A pattern without `*` deletes that one key and reports it,
      whether or not it existed. A pattern with `*` lists the matching keys
      (`KEYS`, in the server's reply order `order`) and deletes them all,
      permanent or not, reporting the list. */
  function Expire(r: Remote, pattern: string, glob: ServerMatch, order: seq<string>): (d: Deletion)
    requires Enumerates(order, r.items.Keys)
    ensures d.remote.failing == r.failing
    ensures d.err.Some? ==> d.remote == r
    ensures '*' !in pattern ==> d.keys == [pattern]
    ensures '*' !in pattern ==> (d.err.None? <==> DelCmd !in r.failing)
    ensures '*' !in pattern && d.err.None? ==> d.remote.items == r.items - {pattern}
    ensures '*' !in pattern && DelCmd in r.failing ==> d.err == Some(r.failing[DelCmd])
    ensures '*' in pattern && KeysCmd in r.failing ==> d.keys == [] && d.err == Some(r.failing[KeysCmd])
    ensures '*' in pattern && KeysCmd !in r.failing ==> forall k :: k in d.keys <==> k in r.items && glob(pattern, k)
    ensures '*' in pattern ==> NoDuplicates(d.keys)
    ensures '*' in pattern && KeysCmd !in r.failing && |d.keys| == 0 ==> d.err == None
    ensures '*' in pattern && KeysCmd !in r.failing && DelCmd in r.failing && |d.keys| > 0
         ==> d.err == Some(r.failing[DelCmd])
    ensures '*' in pattern && KeysCmd !in r.failing && DelCmd !in r.failing ==> d.err == None
    ensures d.err.None? ==> forall k :: k in d.remote.items <==> k in r.items && k !in d.keys
    ensures d.err.None? ==> forall k :: k in d.remote.items ==> d.remote.items[k] == r.items[k]
  {
    if '*' !in pattern then
      if DelCmd in r.failing then Deletion(r, [pattern], Some(r.failing[DelCmd]))
      else Deletion(r.(items := r.items - {pattern}), [pattern], None)
    else if KeysCmd in r.failing then
      Deletion(r, [], Some(r.failing[KeysCmd]))
    else
      var keys := Matching(order, pattern, glob);
      if |keys| == 0 then Deletion(r, [], None)
      else if DelCmd in r.failing then Deletion(r, keys, Some(r.failing[DelCmd]))
      else Deletion(r.(items := r.items - set k | k in keys), keys, None)
  }
}
