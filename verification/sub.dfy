/** The subscriber service of service/sub/sub.go: it reads a subscriber's
    settings from configuration, with sticky package-level defaults, and
    keeps the one package-level subscriber that `RegisterEventHandler` and
    `Run` delegate to. The package-level variables are a `Globals` value
    threaded through the calls. */
module Sub {
  import opened Common
  import Subscriber

  /** A configuration value as the YAML loader yields it. */
  datatype Value = Str(s: string) | Int(i: int) | Bool(b: bool)

  type Config = map<string, Value>

  /** `config.Get(key, &target)` into a string: fails when the key is absent
      or holds another kind of value. */
  function GetString(cfg: Config, key: string): Option<string>
  {
    if key in cfg && cfg[key].Str? then Some(cfg[key].s) else None
  }

  /** Into a Go `int`: a number outside the int64 range cannot be read either. */
  function GetInt(cfg: Config, key: string): Option<Int64>
  {
    if key in cfg && cfg[key].Int? && MinInt64 <= cfg[key].i <= MaxInt64 then Some(cfg[key].i) else None
  }

  function GetBool(cfg: Config, key: string): Option<bool>
  {
    if key in cfg && cfg[key].Bool? then Some(cfg[key].b) else None
  }

  /** The key of setting `field` for subscriber `subName`. */
  function Key(subName: string, field: string): string
  {
    subName + ":" + field
  }

  datatype Globals = Globals(
    waitStep: Duration,
    autoDelete: bool,
    autoAck: bool,
    sub: Option<Subscriber.Subscriber>)

  /** `WAIT_STEP` starts at ten seconds. */
  const DefaultWaitStep: Duration := 10 * Second

  /** The package-level variables before any call. */
  const InitialGlobals := Globals(DefaultWaitStep, false, true, None)

  /** `time.Duration(n) * time.Second`, wrapping like Go's int64 product. */
  function Seconds(n: Int64): (d: Duration)
    ensures 0 < n <= MaxInt64 / Second ==> d == n * Second && d > 0
  {
    Wrap64(n * Second)
  }

  /** All five settings whose absence is fatal can be read. */
  predicate RequiredPresent(cfg: Config, subName: string)
  {
    && GetString(cfg, Key(subName, "addr")).Some?
    && GetString(cfg, Key(subName, "exchange")).Some?
    && GetString(cfg, Key(subName, "route_key")).Some?
    && GetInt(cfg, Key(subName, "pool")).Some?
    && GetInt(cfg, Key(subName, "reconnect")).Some?
  }

  /** `InitSubscriber(subName)`. */
  function InitSubscriber(g: Globals, cfg: Config, subName: string): (r: Result<Globals>)
    ensures r.Ok? <==> RequiredPresent(cfg, subName)
    ensures r.Err? ==> r.error.Fatal?
    ensures r.Ok? ==> r.value.sub.Some?
    ensures r.Ok? ==> var reconnect := GetInt(cfg, Key(subName, "reconnect")).value;
      && (reconnect > 0 ==> r.value.waitStep == Seconds(reconnect))
      && (reconnect <= 0 ==> r.value.waitStep == g.waitStep)
    ensures r.Ok? ==> r.value.autoDelete == GetBool(cfg, Key(subName, "auto_delete")).GetOr(g.autoDelete)
    ensures r.Ok? ==> r.value.autoAck == GetBool(cfg, Key(subName, "auto_ack")).GetOr(g.autoAck)
    ensures r.Ok? ==> var s := r.value.sub.value;
      && s.addr == GetString(cfg, Key(subName, "addr")).value
      && s.exchange == GetString(cfg, Key(subName, "exchange")).value
      && s.routeKey == GetString(cfg, Key(subName, "route_key")).value
      && s.pool == GetInt(cfg, Key(subName, "pool")).value
      && s.queue == GetString(cfg, Key(subName, "queue")).GetOr("")
      && s.autoDelete == r.value.autoDelete
      && s.autoAck == r.value.autoAck
      && s.waitTime == r.value.waitStep
      && s.callbacks == map[]
  {
    var addr := GetString(cfg, Key(subName, "addr"));
    var exchange := GetString(cfg, Key(subName, "exchange"));
    var routeKey := GetString(cfg, Key(subName, "route_key"));
    var pool := GetInt(cfg, Key(subName, "pool"));
    var reconnect := GetInt(cfg, Key(subName, "reconnect"));
    if addr.None? then Err(Fatal(Key(subName, "addr")))
    else if exchange.None? then Err(Fatal(Key(subName, "exchange")))
    else if routeKey.None? then Err(Fatal(Key(subName, "route_key")))
    else if pool.None? then Err(Fatal(Key(subName, "pool")))
    else if reconnect.None? then Err(Fatal(Key(subName, "reconnect")))
    else
      var waitStep := if reconnect.value > 0 then Seconds(reconnect.value) else g.waitStep;
      var queue := GetString(cfg, Key(subName, "queue")).GetOr("");
      var autoDelete := match GetBool(cfg, Key(subName, "auto_delete"))
                        case Some(b) => b
                        case None => g.autoDelete;
      var autoAck := match GetBool(cfg, Key(subName, "auto_ack"))
                     case Some(b) => b
                     case None => g.autoAck;
      var sub := Subscriber.NewSubscriber(addr.value, exchange.value, routeKey.value, queue,
                                          pool.value, autoDelete, autoAck, waitStep);
      Ok(Globals(waitStep, autoDelete, autoAck, Some(sub)))
  }

  /** On first use, settings left out of the configuration take the
      package defaults: a ten-second wait step, no auto-delete, auto-ack. */
  lemma FirstInitDefaults(cfg: Config, subName: string)
    requires RequiredPresent(cfg, subName)
    requires GetInt(cfg, Key(subName, "reconnect")).value <= 0
    requires Key(subName, "auto_delete") !in cfg && Key(subName, "auto_ack") !in cfg
    requires Key(subName, "queue") !in cfg
    ensures var s := InitSubscriber(InitialGlobals, cfg, subName).value.sub.value;
      s.waitTime == 10 * Second && !s.autoDelete && s.autoAck && s.queue == ""
  {
  }

  /** Defaults are sticky: a second subscriber whose configuration leaves a
      setting out inherits what the previous call configured, not the
      initial default. */
  lemma DefaultsAreSticky(g: Globals, cfg1: Config, name1: string, cfg2: Config, name2: string)
    requires InitSubscriber(g, cfg1, name1).Ok?
    requires RequiredPresent(cfg2, name2)
    requires GetInt(cfg2, Key(name2, "reconnect")).value <= 0
    requires GetBool(cfg2, Key(name2, "auto_delete")).None?
    requires GetBool(cfg2, Key(name2, "auto_ack")).None?
    ensures var g1 := InitSubscriber(g, cfg1, name1).value;
      var s2 := InitSubscriber(g1, cfg2, name2).value.sub.value;
      && s2.waitTime == g1.waitStep
      && s2.autoDelete == GetBool(cfg1, Key(name1, "auto_delete")).GetOr(g.autoDelete)
      && s2.autoAck == GetBool(cfg1, Key(name1, "auto_ack")).GetOr(g.autoAck)
  {
  }

  /** `RegisterEventHandler`: register on the package-level subscriber; with
      none initialised the call fails (Go dereferences a nil pointer). */
  function RegisterEventHandler(g: Globals, event: string, callback: Subscriber.Handler): (r: Result<Globals>)
    ensures r.Err? <==> g.sub.None?
    ensures r.Err? ==> r.error == NilSubscriber
    ensures r.Ok? ==> r.value.(sub := g.sub) == g && r.value.sub.Some?
    ensures r.Ok? ==> r.value.sub.value.(callbacks := g.sub.value.callbacks) == g.sub.value
    ensures r.Ok? ==> Subscriber.Lookup(r.value.sub.value, event) == Some(callback)
    ensures r.Ok? ==> forall k :: k != event ==>
      Subscriber.Lookup(r.value.sub.value, k) == Subscriber.Lookup(g.sub.value, k)
  {
    match g.sub
    case None => Err(NilSubscriber)
    case Some(s) => Ok(g.(sub := Some(Subscriber.RegisterEventHandler(s, event, callback))))
  }

  /** `Run`: start the package-level subscriber. `Start` stores the queue
      name it resolves in the subscriber, so the globals keep it. */
  method Run(g: Globals, randomName: Result<string>) returns (r: Result<(Globals, Subscriber.Started)>)
    requires randomName.Ok? ==> |randomName.value| == Subscriber.QueueNameLength
    ensures g.sub.None? ==> r == Err(NilSubscriber)
    ensures r.Err? <==> g.sub.None? || (g.sub.value.queue == "" && randomName.Err?)
    ensures r.Err? && g.sub.Some? ==> r.error.Fatal?
    ensures r.Ok? ==> g.sub.Some?
    ensures r.Ok? ==> r.value.0 == g.(sub := Some(r.value.1.sub))
    ensures r.Ok? ==> r.value.1.sub == g.sub.value.(queue := r.value.1.sub.queue)
    ensures r.Ok? ==> |r.value.1.workers| == (if g.sub.value.pool <= 0 then 0 else g.sub.value.pool)
    ensures r.Ok? && g.sub.value.queue != "" ==> r.value.1.sub.queue == g.sub.value.queue
    ensures r.Ok? && g.sub.value.queue == "" ==> r.value.1.sub.queue == randomName.value
    ensures r.Ok? ==> forall j :: 0 <= j < |r.value.1.workers| ==>
      r.value.1.workers[j] == Subscriber.Launch(j, r.value.1.sub.queue, 0)
  {
    match g.sub
    case None =>
      return Err(NilSubscriber);
    case Some(s) =>
      var started := Subscriber.Start(s, randomName);
      match started
      case Err(e) => return Err(e);
      case Ok(st) => return Ok((g.(sub := Some(st.sub)), st));
  }
}
