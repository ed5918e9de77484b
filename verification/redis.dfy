/** The Redis pool registry of db/redis.go.

    As for MySQL, the package-level map `redisPools` is a value threaded
    through the operations, and what the network answers (the pool's `Get`,
    the ping of the pooled client, the ping of a freshly dialled client) is
    an oracle the caller supplies. */
module Redis {
  import opened Common
  import opened DbTypes

  /** `MAX_TRIED`: reconnection rounds `GetRedis` makes before giving up. */
  const MaxTried: nat := 3
  const MasterName := "master"

  /** The defaulting `newRedisPool` applies once the address is known to be set. */
  function NormalizeSpec(spec: RedisSpec): (r: RedisSpec)
    ensures r.addr == spec.addr
    ensures r.pool == (if spec.pool < 1 then DefaultRedisPoolSize else spec.pool)
    ensures r.db == (if spec.db < 0 then 0 else spec.db)
    ensures r.pool >= 1 && r.db >= 0
  {
    var withPool := if spec.pool < 1 then spec.(pool := DefaultRedisPoolSize) else spec;
    if withPool.db < 0 then withPool.(db := 0) else withPool
  }

  /** Normalising a normalised spec changes nothing. */
  lemma NormalizeSpecIdempotent(spec: RedisSpec)
    ensures spec.pool >= 1 && spec.db >= 0 ==> NormalizeSpec(spec) == spec
    ensures NormalizeSpec(NormalizeSpec(spec)) == NormalizeSpec(spec)
  {
  }

  /** An opened round-robin pool; its factory makes resources of kind `name`. */
  datatype RedisPool = RedisPool(name: string, spec: RedisSpec)

  type Pools = map<string, RedisPool>

  /** `newRedisPool`: an unset address is fatal, the spec is normalised, the
      server is probed (`reachable` is the probe's ping outcome; a failure is
      fatal) and the pool is registered under `name`. */
  function NewRedisPool(pools: Pools, name: string, spec: RedisSpec, reachable: bool): (r: Result<Pools>)
    ensures spec.addr == "" ==> r.Err? && r.error.Fatal?
    ensures r.Ok? <==> spec.addr != "" && reachable
    ensures r.Err? ==> r.error.Fatal?
    ensures r.Ok? ==> name in r.value && r.value[name] == RedisPool(name, NormalizeSpec(spec))
    ensures r.Ok? ==> r.value.Keys == pools.Keys + {name}
    ensures r.Ok? ==> forall k :: k in pools && k != name ==> r.value[k] == pools[k]
  {
    if spec.addr == "" then Err(Fatal("addr not set"))
    else if !reachable then Err(Fatal("failed to connect to redis"))
    else Ok(pools[name := RedisPool(name, NormalizeSpec(spec))])
  }

  /** A client handed out by the pool, or one dialled during reconnection
      round `round` (with pool size 1, from the resource's spec). */
  datatype RedisClient = PooledClient(id: nat) | FreshClient(round: nat)

  datatype RedisResource = RedisResource(kind: string, client: RedisClient, spec: RedisSpec)

  /** The pool's answer to `Get`. */
  datatype RedisAnswer =
    | GetFailed(reason: string)
    | NotRedis                                  // the type assertion failed
    | Conn(res: RedisResource)

  /** One reconnection round: the ping of the pooled client and, when that
      fails, the ping of a freshly dialled one. */
  datatype Probe = Probe(pooledPingOk: bool, freshPingOk: bool)

  predicate Dead(p: Probe)
  {
    !p.pooledPingOk && !p.freshPingOk
  }

  datatype Reconnection = Reconnection(result: Result<RedisResource>, rounds: nat)

  /** The `for` loop of `GetRedis` from round `i` on: every round re-pings
      the pooled client `mr` first and dials a fresh client only if that
      fails. `rounds` is the number of rounds run in total. */
  function Reconnect(name: string, mr: RedisResource, probes: nat -> Probe, i: nat): (r: Reconnection)
    requires i <= MaxTried
    ensures i <= r.rounds <= MaxTried
    ensures forall j :: i <= j < r.rounds - (if r.result.Ok? then 1 else 0) ==> Dead(probes(j))
    ensures r.result.Err? ==> r.rounds == MaxTried && r.result.error.CannotConnect?
    ensures r.result.Ok? ==> r.rounds > i && !Dead(probes(r.rounds - 1))
    ensures r.result.Ok? && probes(r.rounds - 1).pooledPingOk ==> r.result.value == mr
    ensures r.result.Ok? && !probes(r.rounds - 1).pooledPingOk ==>
      r.result.value == RedisResource(name, FreshClient(r.rounds - 1), mr.spec)
    decreases MaxTried - i
  {
    if i >= MaxTried then Reconnection(Err(CannotConnect("can not establish connection to redis")), i)
    else if probes(i).pooledPingOk then Reconnection(Ok(mr), i + 1)
    else if probes(i).freshPingOk then Reconnection(Ok(RedisResource(name, FreshClient(i), mr.spec)), i + 1)
    else Reconnect(name, mr, probes, i + 1)
  }

  /** `GetRedis(name)`: look the pool up, take a resource from it, and make
      sure its connection answers. */
  function GetRedis(pools: Pools, name: string, answer: RedisAnswer, probes: nat -> Probe): (r: Reconnection)
    ensures name !in pools ==> r == Reconnection(Err(PoolNotFound), 0)
    ensures name in pools && answer.GetFailed? ==> r == Reconnection(Err(PoolGetFailed(answer.reason)), 0)
    ensures name in pools && answer.NotRedis? ==> r == Reconnection(Err(TypeConversionFailed), 0)
    ensures r.rounds > 0 ==> name in pools && answer.Conn?
    ensures name in pools && answer.Conn? ==>
      (r.result.Ok? <==> exists j :: 0 <= j < MaxTried && !Dead(probes(j)))
    ensures r.result.Ok? ==> name in pools && answer.Conn? && r.result.value.spec == answer.res.spec
    ensures r.result.Ok? ==> r.result.value == answer.res || r.result.value.kind == name
  {
    if name !in pools then Reconnection(Err(PoolNotFound), 0)
    else match answer
      case GetFailed(reason) => Reconnection(Err(PoolGetFailed(reason)), 0)
      case NotRedis => Reconnection(Err(TypeConversionFailed), 0)
      case Conn(mr) => Reconnect(name, mr, probes, 0)
  }

  /** `GetMRedis`: the pool named "master". */
  function GetMRedis(pools: Pools, answer: RedisAnswer, probes: nat -> Probe): (r: Reconnection)
    ensures r == GetRedis(pools, MasterName, answer, probes)
    ensures MasterName !in pools ==> r.result == Err(PoolNotFound)
  {
    GetRedis(pools, MasterName, answer, probes)
  }

  /** `pool.Put(resource)` into the pool registered under `key`. */
  datatype Put = Put(key: string, resource: RedisResource)

  /** `RedisResource.Release`: put the resource back under its kind. */
  function Release(res: RedisResource): Put
  {
    Put(res.kind, res)
  }

  /** When the pool's resources are of its own kind, a resource `GetRedis`
      hands out, pooled or freshly dialled, is released into that pool. */
  lemma GetRedisReleasesToSamePool(pools: Pools, name: string, answer: RedisAnswer, probes: nat -> Probe)
    requires answer.Conn? ==> answer.res.kind == name
    ensures GetRedis(pools, name, answer, probes).result.Ok? ==>
      Release(GetRedis(pools, name, answer, probes).result.value).key == name
  {
  }

  /** A healthy pooled client is handed out unchanged after one round; a
      dead one whose replacement answers is swapped for a fresh client. */
  lemma GetRedisFirstRound(pools: Pools, name: string, res: RedisResource, probes: nat -> Probe)
    requires name in pools
    ensures probes(0).pooledPingOk ==> GetRedis(pools, name, Conn(res), probes) == Reconnection(Ok(res), 1)
    ensures !probes(0).pooledPingOk && probes(0).freshPingOk ==>
      GetRedis(pools, name, Conn(res), probes) == Reconnection(Ok(RedisResource(name, FreshClient(0), res.spec)), 1)
  {
  }
}
