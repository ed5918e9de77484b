# gokit subscriber and connection pools, modelled in Dafny

This project models the core of the `gokit` Go toolkit:

- the **self-healing RabbitMQ subscriber** (`rabbitmq/subscriber`): a handler
  registry keyed by routing key, `Start`, which resolves the queue name once
  and launches `pool` workers, and the worker loop `startWorker` /
  `restartWorker`. The worker loop sets up the topology, consumes, dispatches
  and acks, and restarts with additive backoff;
- the **subscriber service** (`service/sub`): it reads a subscriber's settings
  from configuration. Some package-level defaults are sticky across calls;
- the **MySQL and Redis pool registries** (`db/mysql.go`, `db/redis.go`): spec
  defaulting, registry keys, and the bounded "get, ping, else retry" loops of
  `GetMySQL` and `GetRedis`.

Everything is pure. The Go package-level variables (`mysqlPools`,
`redisPools`, `WAIT_STEP`, `autoDelete`, `autoACK`, `sub`) become values that
are passed in and returned. The network becomes oracle parameters:

- One worker runs over a finite trace of `Attempt`s. An attempt holds the
  broker's answer to each setup call and the deliveries that arrived before
  the stream closed.
- A worker produces an `Action` log: dial, channel, declare, bind, qos and
  consume calls, handler invocations, acks, connection closes and sleeps.
  It also produces the wait it carries into each restart.
- `GetMySQL` takes the pool's answer to each `Get` and the ping of its
  resource as a function from the cycle number to an outcome. `GetRedis`
  makes one `Get`, so it takes that one answer, and the pings of each
  reconnection round as a function from the round number.
- `util.RandomString(10)` is a `Result<string>` parameter of `Start`.
- `log.Fatalln` becomes `Err(Fatal(..))`.
- `time.Duration` and Go `int` are 64-bit. Additions and products wrap
  explicitly (`Common.Wrap64`).

Files: `common.dfy` (options, results, int64 arithmetic, sequence filter),
`db_types.dfy` (db/types.go), `mysql.dfy`, `redis.dfy`, `subscriber.dfy`,
`sub.dfy`.

Facts of the code worth knowing:

- `Consume` is called with `noLocal = true` (rabbitmq/subscriber/subscriber.go:89).
- Nothing checks the pool size: a pool of 0 or less launches no worker.
- `GetMySQL` runs four get-and-ping cycles, although its final log line
  speaks of five.

## Model

| member | source | states |
|---|---|---|
| Subscriber.NewSubscriber | rabbitmq/subscriber/subscriber.go:19-21 | stores the eight settings as given, and no routing key has a handler yet |
| Subscriber.RegisterEventHandler | rabbitmq/subscriber/subscriber.go:39-45 | afterwards the key looks up the new handler; every other key looks up what it did before; no other setting changes |
| Subscriber.LastRegistrationWins | rabbitmq/subscriber/subscriber.go:44 | registering twice under one key is the same as registering only the second handler |
| Subscriber.RegistrationsCommute | rabbitmq/subscriber/subscriber.go:44 | registrations under different keys can happen in either order |
| Subscriber.Dispatch | rabbitmq/subscriber/subscriber.go:100-109 | handling one delivery only invokes handlers registered for the key and sends single acks, none under auto-ack; without auto-ack it ends with the delivery's own `Ack(false)` |
| Subscriber.DispatchEffects | rabbitmq/subscriber/subscriber.go:100-109 | a delivery invokes exactly the handler registered for its key, once, with its key and body, or nothing if none is registered; it is acked once, singly and by its own tag, unless auto-ack is on; it never closes or sleeps |
| Subscriber.DispatchShape | rabbitmq/subscriber/subscriber.go:100-109 | without auto-ack a delivery's actions are its handler call, if one is registered, directly followed by its own ack |
| Subscriber.ConsumeLoop | rabbitmq/subscriber/subscriber.go:99-110 | every action of the consume loop is the handler registered for a delivery's key or a single ack, and acks are sent only without auto-ack |
| Subscriber.ConsumeLoopInvocations | rabbitmq/subscriber/subscriber.go:99-106 | the handler calls of the consume loop are one per registered delivery, in delivery order; unregistered deliveries invoke nothing |
| Subscriber.ConsumeLoopAcks | rabbitmq/subscriber/subscriber.go:107-109 | without auto-ack the acks are exactly one single ack per delivery, by its own tag, in delivery order; with auto-ack there is none |
| Subscriber.ConsumeLoopOrder | rabbitmq/subscriber/subscriber.go:99-110 | deliveries are handled one at a time: the log is everything done for the deliveries before delivery i, then delivery i's handler call and ack, then everything done for the deliveries after it |
| Subscriber.ConsumeLoopConcat | rabbitmq/subscriber/subscriber.go:99-110 | consuming two runs of deliveries in turn gives the log of the first run followed by the log of the second |
| Subscriber.ConsumeLoopLength | rabbitmq/subscriber/subscriber.go:99-110 | without auto-ack the consume loop does one ack per delivery plus one call per registered delivery, and nothing else |
| Subscriber.ConsumeLoopQuiet | rabbitmq/subscriber/subscriber.go:99-110 | the consume loop neither closes the connection nor sleeps |
| Subscriber.SetupCalls | rabbitmq/subscriber/subscriber.go:48-89 | the seven setup calls are, at positions 0 to 6, the dial of the configured address, the channel, a durable topic exchange, a durable non-exclusive queue with the configured auto-delete, the binding by route key, Qos(2, 0, false) and a consume with the configured auto-ack |
| Subscriber.StartWorker | rabbitmq/subscriber/subscriber.go:47-115 | every run starts by dialling; a failure at any setup stage restarts with `lastWait + wait_time`; a stream closing after consuming began restarts with 0; whenever the dial succeeded, the run ends by closing the connection |
| Subscriber.StartWorkerStages | rabbitmq/subscriber/subscriber.go:48-89 | setup stops at the first failure: the channel, exchange, queue, bind, Qos and consume calls are each made exactly when every stage before them succeeded, in source order, and none is made again after the setup prefix |
| Subscriber.QosOutcomeIgnored | rabbitmq/subscriber/subscriber.go:87 | the Qos outcome never changes what the worker does |
| Subscriber.StartWorkerClosesOnce | rabbitmq/subscriber/subscriber.go:55-113 | the connection is closed exactly once when the dial succeeded, never when it failed; an attempt never sleeps |
| Subscriber.StartWorkerDispatch | rabbitmq/subscriber/subscriber.go:89-111 | handlers run and acks are sent only once setup has completed; each registered delivery runs its handler once, and each delivery is acked once by its tag, in order, when auto-ack is off |
| Subscriber.RunWorker | rabbitmq/subscriber/subscriber.go:117-124 | a worker driven through n attempts hands `restartWorker` one carried wait per attempt |
| Subscriber.RunWorkerRestarts | rabbitmq/subscriber/subscriber.go:47-124 | every restart runs `startWorker` again: the worker's log is, attempt after attempt, a fresh `startWorker` run from the wait the previous attempt handed over, followed by that restart's sleep |
| Subscriber.StartWorkerDialsOnce | rabbitmq/subscriber/subscriber.go:48-55 | every attempt dials the configured address exactly once, and nothing else in it is a dial |
| Subscriber.WorkerDials | rabbitmq/subscriber/subscriber.go:47-124 | the worker dials anew on every restart: one dial of the configured address per attempt, and no other dial |
| Subscriber.WorkerCloses | rabbitmq/subscriber/subscriber.go:55-124 | across restarts the connection closes number exactly the attempts whose dial succeeded |
| Subscriber.WorkerDispatch | rabbitmq/subscriber/subscriber.go:89-124 | across restarts the handler calls are those of the registered deliveries of every attempt that started consuming, attempt after attempt; the acks likewise, one per delivery by its tag, none under auto-ack |
| Subscriber.WorkerStartsWithDial | rabbitmq/subscriber/subscriber.go:47-55 | a worker's first action is a dial: no sleep comes before the first attempt, whatever wait it carries in |
| Subscriber.WorkerConfigured | rabbitmq/subscriber/subscriber.go:47-115 | whatever the broker answers, every call a worker makes uses the configured address, exchange, queue and route key; only registered handlers run; acks are single and only sent without auto-ack; every sleep is positive |
| Subscriber.WorkerWaits | rabbitmq/subscriber/subscriber.go:51-124 | the wait after each attempt is 0 if its setup completed, else the wait carried into it plus `wait_time` |
| Subscriber.BackoffAccumulates | rabbitmq/subscriber/subscriber.go:48-95 | after k consecutive setup failures from carried wait w0, the wait is w0 + k * wait_time, for a step of either sign |
| Subscriber.BackoffNonDecreasing | rabbitmq/subscriber/subscriber.go:48-95 | from a fresh worker, repeated setup failures give waits that never decrease and are each at least `wait_time` |
| Subscriber.ClosureResetsBackoff | rabbitmq/subscriber/subscriber.go:112-114 | after a mid-stream closure the wait is 0; the next setup failure waits only `wait_time`, not the accumulated value |
| Subscriber.WorkerSleeps | rabbitmq/subscriber/subscriber.go:117-124 | the worker sleeps exactly once per restart whose carried wait is positive, for that wait, and at no other time |
| Subscriber.Start | rabbitmq/subscriber/subscriber.go:23-37 | an empty queue name is replaced once by the 10-character random name, and a failure to draw it is fatal; a non-empty name is kept; exactly `pool` workers are launched (none if `pool <= 0`), each with carried wait 0 and the one resolved queue |
| Subscriber.WorkersShareQueue | rabbitmq/subscriber/subscriber.go:71-89 | every worker of a started subscriber declares, binds and consumes only the queue `Start` resolved |
| Common.AddDuration | rabbitmq/subscriber/subscriber.go:51 | `lastWait + wait_time` is the exact sum while it fits in an int64, and is then at least either operand when both are non-negative |
| Sub.Seconds | service/sub/sub.go:49-51 | `Duration(n) * time.Second` is n seconds in nanoseconds, and positive, for every positive n that does not overflow |
| Sub.InitSubscriber | service/sub/sub.go:18-74 | fatal exactly when addr, exchange, route_key, pool or reconnect cannot be read; a positive reconnect sets the wait step, anything else keeps the previous one; auto_delete and auto_ack take the configured value if readable, else the previous package value; a missing queue gives an empty name; the new subscriber gets exactly these settings and no handlers |
| Sub.FirstInitDefaults | service/sub/sub.go:10-14 | on first use, unconfigured settings are a 10 s wait step, auto-delete off, auto-ack on and an empty queue name |
| Sub.DefaultsAreSticky | service/sub/sub.go:49-71 | a later call whose configuration omits reconnect, auto_delete or auto_ack inherits the values the earlier call left |
| Sub.RegisterEventHandler | service/sub/sub.go:76-78 | registers on the package-level subscriber, with the registry effects of `Subscriber.RegisterEventHandler`, and changes nothing of it but its handler map and nothing else of the globals; fails when no subscriber was initialised |
| Sub.Run | service/sub/sub.go:80-82 | fails exactly when no subscriber was initialised, or its queue is empty and no random name could be drawn; otherwise it starts the package subscriber: the queue is kept or replaced by the drawn name, and exactly `max(pool, 0)` workers are launched, each with carried wait 0 and that queue |
| Mysql.PoolKeyInjective | db/mysql.go:161 | with roles `master` and `slave`, two (group, role) pairs share the key `group#role` only if they are equal |
| Mysql.NormalizeSpec | db/mysql.go:138-144 | an empty address becomes `localhost` and a pool below 1 becomes 500; set values and the other fields are kept |
| Mysql.NormalizeSpecIdempotent | db/mysql.go:138-144 | a spec needing no defaulting is unchanged, so defaulting twice equals defaulting once |
| Mysql.NewMysqlRolePool | db/mysql.go:137-162 | a failed probe connection is fatal; otherwise exactly the key `group#role` is added, holding the defaulted spec, and every other pool is unchanged |
| Mysql.NewMysqlPool | db/mysql.go:118-135 | fatal without a master or when a probe fails; registers the master pool and, when given, the slave pool, under their keys; the key set grows by exactly those keys and no other pool changes |
| Mysql.NewMysqlPoolWellKeyed | db/mysql.go:126-134 | registering a group keeps every pool under its own group and role |
| Mysql.ReleaseReturnsToOwnPool | db/mysql.go:94-97 | `Release` puts a resource back under `GroupName#Role`; in a well-keyed registry that is exactly the pool with its own group and role |
| Mysql.GetMySQL | db/mysql.go:29-68 | an unknown pool fails at once; a `Get` error or a failed conversion returns at once; a dead connection is released and retried; the first live connection is returned; success holds exactly when a live answer comes among the first four before any error; four dead answers give "cannot connect" |
| Redis.NormalizeSpec | db/redis.go:132-138 | a pool below 1 becomes 500 and a negative db becomes 0; the address and set values are kept |
| Redis.NormalizeSpecIdempotent | db/redis.go:132-138 | defaulting twice equals defaulting once |
| Redis.NewRedisPool | db/redis.go:121-159 | an empty address or a failed probe is fatal; otherwise exactly the key `name` is added, holding the defaulted spec, and every other pool is unchanged |
| Redis.Reconnect | db/redis.go:57-87 | at most MAX_TRIED (3) rounds run, each re-pinging the pooled client first; the first round where either ping succeeds decides the result: the pooled resource unchanged, or a fresh client of kind `name` with the same spec; if every round fails the result is an error |
| Redis.GetRedis | db/redis.go:35-92 | an unknown name returns POOL_NOT_FOUND; a Get error or a failed type conversion returns at once; otherwise it succeeds exactly when some round within MAX_TRIED has a live ping, and returns the pooled resource or one of kind `name` with the same spec |
| Redis.GetMRedis | db/redis.go:31-33 | is `GetRedis("master")` |
| Redis.GetRedisReleasesToSamePool | db/redis.go:116-119 | `Release` puts a resource back under its kind, so a resource handed out by `GetRedis(name)`, pooled or fresh, goes back into pool `name` |
| Redis.GetRedisFirstRound | db/redis.go:64-86 | a live pooled client is returned unchanged after one round; a dead one whose replacement answers is swapped for a fresh client |

## Left out

- push/jpush/jpush.go: it builds push payloads through a foreign client library. Its rate limiter depends on the wall clock, a mutex and a channel semaphore.
- db/database.go (`StartAll`, `unmarshal`): a JSON re-marshal of dynamically typed YAML maps. Specs enter the model already typed.
- `StartMysql` and `StartRedis`: they iterate over a configuration map in an unspecified order. The model registers one group or one name at a time.
- The pool factories (`newMysqlFactory`, `newRedisFactory`), `ToSQLError`, `Db`, `Close`, `Nil`, `Client`, and both `IsClosed` methods: thin wrappers around driver calls. `GetMySQL` pings each connection once itself (db/mysql.go:52) and does not call `IsClosed`, which would ping again; the model records that one ping's outcome.
- The `vuleetu/pools` round-robin internals: capacity, the 10-minute idle timeout, blocking `Get`. A pool is the group, role and spec it was opened with, and `Put` is a recorded value.
- Closing the probe connection that `newMysqlPool1` and `newRedisPool` open is not modelled.
- Mysql.GetMySQL: assumes each resource comes from its own registered pool. A `Put` into a key with no pool (a nil pointer in Go) is not modelled.
- Redis.GetRedis: records no release. The code does not put back the pooled resource when a fresh client replaces it, nor when every round fails, so this omission matches the code.
- Goroutines, `time.Sleep` and logging: each worker is a sequential trace, and a sleep is a recorded `Sleep(wait)` action.
- Subscriber.RunWorker: in the code `startWorker` and `restartWorker` call each other without end (rabbitmq/subscriber/subscriber.go:51-114 and 124). Go does not eliminate tail calls, so every restart adds a stack frame, and restarts with wait 0 do not even sleep. The goroutine's stack therefore grows until Go's stack limit ends the whole process. The model turns this recursion into a fold over any finite prefix of the attempts, and it leaves out the stack growth and the crash it eventually causes.
- Subscriber.BackoffAccumulates: stated only while `w0 + k * wait_time` fits in an int64 (for a step of either sign). Past that the Go sum wraps, and `AddDuration` models the wrap.
- Subscriber.BackoffNonDecreasing: stated under the same no-overflow bound and for a non-negative `wait_time`.
- Subscriber.Handler: handlers are opaque identities and their effects are not modelled. A handler that panics is not modelled either: `startWorker` runs in a goroutine without `recover`, so in the code such a panic ends the whole process.
- Subscriber.Start: a started subscriber's registry is frozen in `Started.sub`. In the code the workers read the live `callback` map, so a handler registered after `Start` is seen by running workers (through an unsynchronised map, a data race).
- Sub.InitSubscriber: `config.Get` is assumed to fail exactly when the key is absent or holds another kind of value. The config package is not part of this model.
