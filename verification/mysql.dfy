/** The MySQL pool registry of db/mysql.go.

    The package-level map `mysqlPools` becomes a `Pools` value threaded
    through the operations. A round-robin pool is represented by the group,
    role and normalised spec it was opened with; what the broker of
    connections answers (a resource or an error from `Get`, the result of
    each `Ping`) is an oracle the caller supplies. */
module Mysql {
  import opened Common
  import opened DbTypes

  const MasterRole := "master"
  const SlaveRole := "slave"
  const LocalHost := "localhost"

  /** `GetMySQL` counts `i` from 1 while `i < 5`: four get-and-ping cycles,
      although its final log line speaks of five. */
  const MaxGetCycles: nat := 4

  /** The registry key of a group's role: `groupName + "#" + role`. */
  function PoolKey(groupName: string, role: string): string
  {
    groupName + "#" + role
  }

  /** The two roles the registry uses never make two groups share a key. */
  lemma PoolKeyInjective(g1: string, r1: string, g2: string, r2: string)
    requires r1 == MasterRole || r1 == SlaveRole
    requires r2 == MasterRole || r2 == SlaveRole
    requires PoolKey(g1, r1) == PoolKey(g2, r2)
    ensures g1 == g2 && r1 == r2
  {
    var k := PoolKey(g1, r1);
    PoolKeyEndsWithRole(g1, r1);
    PoolKeyEndsWithRole(g2, r2);
    assert r1[|r1| - 1] == r2[|r2| - 1];
    assert r1 == r2;
    assert |g1| == |g2|;
    assert g1 == k[..|g1|];
    assert g2 == k[..|g2|];
  }

  lemma PoolKeyEndsWithRole(g: string, r: string)
    requires |r| > 0
    ensures PoolKey(g, r)[|PoolKey(g, r)| - 1] == r[|r| - 1]
  {
  }

  /** The defaulting `newMysqlPool1` applies before connecting. */
  function NormalizeSpec(spec: MysqlSpec): (r: MysqlSpec)
    ensures r.addr == (if spec.addr == "" then LocalHost else spec.addr)
    ensures r.pool == (if spec.pool < 1 then DefaultMysqlPoolSize else spec.pool)
    ensures r.addr != "" && r.pool >= 1
    ensures r.(addr := spec.addr, pool := spec.pool) == spec
  {
    var withAddr := if spec.addr == "" then spec.(addr := LocalHost) else spec;
    if withAddr.pool < 1 then withAddr.(pool := DefaultMysqlPoolSize) else withAddr
  }

  /** A spec that needs no defaulting is left alone, so normalising twice
      changes nothing. */
  lemma NormalizeSpecIdempotent(spec: MysqlSpec)
    ensures spec.addr != "" && spec.pool >= 1 ==> NormalizeSpec(spec) == spec
    ensures NormalizeSpec(NormalizeSpec(spec)) == NormalizeSpec(spec)
  {
  }

  /** An opened round-robin pool: its factory makes resources for this group and role. */
  datatype MysqlPool = MysqlPool(groupName: string, role: string, spec: MysqlSpec)

  type Pools = map<string, MysqlPool>

  /** Every pool sits under the key of its own group and role, and every role
      is master or slave. */
  ghost predicate WellKeyed(pools: Pools)
  {
    forall k :: k in pools ==>
      k == PoolKey(pools[k].groupName, pools[k].role)
      && (pools[k].role == MasterRole || pools[k].role == SlaveRole)
  }

  /** `newMysqlPool1`: normalise the spec, probe the server (`reachable` is
      the outcome of that probe connection), and register the pool under
      `groupName#role`. A failed probe is fatal. */
  function NewMysqlRolePool(pools: Pools, groupName: string, role: string, spec: MysqlSpec,
                            reachable: bool): (r: Result<Pools>)
    ensures r.Ok? <==> reachable
    ensures r.Err? ==> r.error.Fatal?
    ensures r.Ok? ==> (PoolKey(groupName, role) in r.value
                       && r.value[PoolKey(groupName, role)] == MysqlPool(groupName, role, NormalizeSpec(spec)))
    ensures r.Ok? ==> r.value.Keys == pools.Keys + {PoolKey(groupName, role)}
    ensures r.Ok? ==> forall k :: k in pools && k != PoolKey(groupName, role) ==> r.value[k] == pools[k]
  {
    if !reachable then Err(Fatal("failed to connect to mysql"))
    else Ok(pools[PoolKey(groupName, role) := MysqlPool(groupName, role, NormalizeSpec(spec))])
  }

  /** `newMysqlPool`: a group without a master is fatal; the master pool is
      always registered and the slave pool only when a slave is given. */
  function NewMysqlPool(pools: Pools, groupName: string, group: MysqlGroup,
                        masterReachable: bool, slaveReachable: bool): (r: Result<Pools>)
    ensures group.master.None? ==> r.Err? && r.error.Fatal?
    ensures r.Err? ==> r.error.Fatal?
    ensures r.Ok? <==> group.master.Some? && masterReachable && (group.slave.Some? ==> slaveReachable)
    ensures r.Ok? ==>
      (PoolKey(groupName, MasterRole) in r.value
       && r.value[PoolKey(groupName, MasterRole)] == MysqlPool(groupName, MasterRole, NormalizeSpec(group.master.value)))
    ensures r.Ok? && group.slave.Some? ==>
      (PoolKey(groupName, SlaveRole) in r.value
       && r.value[PoolKey(groupName, SlaveRole)] == MysqlPool(groupName, SlaveRole, NormalizeSpec(group.slave.value)))
    ensures r.Ok? && group.slave.None? ==> r.value.Keys == pools.Keys + {PoolKey(groupName, MasterRole)}
    ensures r.Ok? && group.slave.Some? ==>
      r.value.Keys == pools.Keys + {PoolKey(groupName, MasterRole), PoolKey(groupName, SlaveRole)}
    ensures r.Ok? ==>
      forall k :: (k in pools && k != PoolKey(groupName, MasterRole) && k != PoolKey(groupName, SlaveRole)) ==>
        (k in r.value && r.value[k] == pools[k])
  {
    match group.master
    case None => Err(Fatal("mysql database group not specified"))
    case Some(master) =>
      match NewMysqlRolePool(pools, groupName, MasterRole, master, masterReachable)
      case Err(e) => Err(e)
      case Ok(withMaster) =>
        match group.slave
        case None => Ok(withMaster)
        case Some(slave) => NewMysqlRolePool(withMaster, groupName, SlaveRole, slave, slaveReachable)
  }

  /** Registering a group keeps every pool under its own group and role. */
  lemma NewMysqlPoolWellKeyed(pools: Pools, groupName: string, group: MysqlGroup,
                              masterReachable: bool, slaveReachable: bool)
    requires WellKeyed(pools)
    ensures NewMysqlPool(pools, groupName, group, masterReachable, slaveReachable).Ok? ==>
      WellKeyed(NewMysqlPool(pools, groupName, group, masterReachable, slaveReachable).value)
  {
  }

  /** A pooled connection, made by the factory of one group and role. */
  datatype MysqlResource = MysqlResource(groupName: string, role: string, conn: nat, spec: MysqlSpec)

  /** `pool.Put(resource)` into the pool registered under `key`. */
  datatype Put = Put(key: string, resource: MysqlResource)

  /** `MysqlResource.Release`: put the resource back under its own `GroupName#Role`. */
  function Release(res: MysqlResource): Put
  {
    Put(PoolKey(res.groupName, res.role), res)
  }

  /** In a well-keyed registry a released resource goes back to exactly
      the pool whose group and role it carries, and to no other pool. */
  lemma ReleaseReturnsToOwnPool(pools: Pools, res: MysqlResource)
    requires WellKeyed(pools)
    requires res.role == MasterRole || res.role == SlaveRole
    ensures forall k :: k in pools ==>
      (Release(res).key == k <==> pools[k].groupName == res.groupName && pools[k].role == res.role)
  {
    forall k | k in pools && Release(res).key == k
      ensures pools[k].groupName == res.groupName && pools[k].role == res.role
    {
      PoolKeyInjective(res.groupName, res.role, pools[k].groupName, pools[k].role);
    }
  }

  /** The pool's answer to one `Get` followed by the resource's `Ping`. */
  datatype MysqlAnswer =
    | GetFailed(reason: string)
    | NotMysql                                  // the type assertion failed
    | Conn(res: MysqlResource, pingOk: bool)

  predicate DeadConn(a: MysqlAnswer)
  {
    a.Conn? && !a.pingOk
  }

  predicate LiveConn(a: MysqlAnswer)
  {
    a.Conn? && a.pingOk
  }

  /** Reference condition for success: among the first `n` answers there is
      a live connection, and every answer before it was a dead one (no `Get`
      error, no failed conversion). */
  predicate LiveWithin(answers: nat -> MysqlAnswer, n: nat)
  {
    exists j :: 0 <= j < n && LiveConn(answers(j)) && forall k :: 0 <= k < j ==> DeadConn(answers(k))
  }

  /** When the answers up to `stop` are dead and answer `stop` (if still
      within the cycles) is an error, no live answer is within reach. */
  lemma NoLiveWithin(answers: nat -> MysqlAnswer, stop: nat)
    requires stop <= MaxGetCycles
    requires forall k :: 0 <= k < stop ==> DeadConn(answers(k))
    requires stop < MaxGetCycles ==> !LiveConn(answers(stop)) && !DeadConn(answers(stop))
    ensures !LiveWithin(answers, MaxGetCycles)
  {
  }

  /** `GetMySQL(groupName, role)`; `answers(j)` is what the pool's j-th
      `Get` and the ping of its resource yield. `gets` counts the `Get`
      calls made and `released` lists the resources put back, in order. */
  method GetMySQL(pools: Pools, groupName: string, role: string, answers: nat -> MysqlAnswer)
    returns (r: Result<MysqlResource>, gets: nat, released: seq<Put>)
    ensures PoolKey(groupName, role) !in pools ==> r == Err(PoolNotFound) && gets == 0 && released == []
    ensures PoolKey(groupName, role) in pools ==> 1 <= gets <= MaxGetCycles
    ensures |released| <= gets
    ensures forall j :: 0 <= j < |released| ==> DeadConn(answers(j)) && released[j] == Release(answers(j).res)
    ensures r.Ok? ==>
      (|released| == gets - 1 && answers(gets - 1) == Conn(r.value, true))
    ensures gets > 0 && answers(gets - 1).GetFailed? ==>
      r == Err(PoolGetFailed(answers(gets - 1).reason)) && |released| == gets - 1
    ensures gets > 0 && answers(gets - 1).NotMysql? ==> r == Err(TypeConversionFailed) && |released| == gets - 1
    ensures gets > 0 && DeadConn(answers(gets - 1)) ==>
      gets == MaxGetCycles && |released| == gets && r.Err? && r.error.CannotConnect?
    ensures gets > 0 && LiveConn(answers(gets - 1)) ==> r == Ok(answers(gets - 1).res)
    ensures r.Ok? <==> PoolKey(groupName, role) in pools && LiveWithin(answers, MaxGetCycles)
  {
    if PoolKey(groupName, role) !in pools {
      return Err(PoolNotFound), 0, [];
    }
    gets, released := 0, [];
    var i := 1;
    while i < 5
      invariant 1 <= i <= 5
      invariant gets == i - 1 && |released| == gets
      invariant forall j :: 0 <= j < |released| ==> DeadConn(answers(j)) && released[j] == Release(answers(j).res)
    {
      var answer := answers(gets);
      gets := gets + 1;
      match answer
      case GetFailed(reason) =>
        NoLiveWithin(answers, gets - 1);
        return Err(PoolGetFailed(reason)), gets, released;
      case NotMysql =>
        NoLiveWithin(answers, gets - 1);
        return Err(TypeConversionFailed), gets, released;
      case Conn(mr, pingOk) =>
        if !pingOk {
          released := released + [Release(mr)];
          i := i + 1;
          continue;
        }
        assert LiveConn(answers(gets - 1));
        return Ok(mr), gets, released;
    }
    NoLiveWithin(answers, gets);
    return Err(CannotConnect("can not establish connection to mysql")), gets, released;
  }
}
