/** The self-healing topic subscriber of rabbitmq/subscriber/subscriber.go.

    One worker is modelled as a fold over a trace of `Attempt`s. An attempt
    is one run of `startWorker`: the broker's answer to each setup call, and,
    when consuming started, the deliveries that arrived before the stream
    closed. The worker's observable behaviour is the `Action` log it
    produces: the broker calls it makes, the handlers it invokes, the acks it
    sends, the connections it closes and the sleeps it takes before each
    restart. The carried backoff after every attempt is kept beside the log. */
module Subscriber {
  import opened Common

  /** A user callback `func(routingKey, body string)`, known by identity only. */
  datatype Handler = Handler(name: string)

  /** An AMQP delivery as far as the worker reads it; `tag` is the delivery
      tag `Ack` acknowledges it by. */
  datatype Delivery = Delivery(tag: nat, routingKey: string, body: string)

  datatype Subscriber = Subscriber(
    addr: string,
    exchange: string,
    routeKey: string,
    queue: string,
    pool: int,
    autoDelete: bool,
    autoAck: bool,
    waitTime: Duration,
    callbacks: map<string, Handler>)

  /** Length of the queue name `Start` draws when none is configured. */
  const QueueNameLength: nat := 10
  const ConsumerTag := "some_consumer"
  const PrefetchCount: int := 2
  const PrefetchSize: int := 0

  function NewSubscriber(addr: string, exchange: string, routeKey: string, queue: string,
                         pool: int, autoDelete: bool, autoAck: bool, waitTime: Duration): (s: Subscriber)
    ensures s.addr == addr && s.exchange == exchange && s.routeKey == routeKey && s.queue == queue
    ensures s.pool == pool && s.autoDelete == autoDelete && s.autoAck == autoAck && s.waitTime == waitTime
    ensures forall k :: Lookup(s, k).None?
  {
    Subscriber(addr, exchange, routeKey, queue, pool, autoDelete, autoAck, waitTime, map[])
  }

  /** The handler a routing key dispatches to (Go's `callback, ok := m[k]`). */
  function Lookup(s: Subscriber, key: string): Option<Handler>
  {
    if key in s.callbacks then Some(s.callbacks[key]) else None
  }

  /* ---------------------------------------------------------------- registry */

  function RegisterEventHandler(s: Subscriber, event: string, callback: Handler): (r: Subscriber)
    ensures Lookup(r, event) == Some(callback)
    ensures forall k :: k != event ==> Lookup(r, k) == Lookup(s, k)
    ensures r.(callbacks := s.callbacks) == s
  {
    s.(callbacks := s.callbacks[event := callback])
  }

  /** A second registration for the same key replaces the first. */
  lemma LastRegistrationWins(s: Subscriber, event: string, first: Handler, second: Handler)
    ensures RegisterEventHandler(RegisterEventHandler(s, event, first), event, second)
         == RegisterEventHandler(s, event, second)
  {
  }

  /** Registrations under different keys do not interfere. */
  lemma RegistrationsCommute(s: Subscriber, k1: string, f: Handler, k2: string, g: Handler)
    requires k1 != k2
    ensures RegisterEventHandler(RegisterEventHandler(s, k1, f), k2, g)
         == RegisterEventHandler(RegisterEventHandler(s, k2, g), k1, f)
  {
  }

  /* ----------------------------------------------------------------- effects */

  datatype Action =
    | Dial(addr: string)
    | OpenChannel
    | DeclareExchange(exchange: string, kind: string, durable: bool, autoDelete: bool,
                      internal: bool, noWait: bool)
    | DeclareQueue(queue: string, durable: bool, autoDelete: bool, exclusive: bool, noWait: bool)
    | BindQueue(queue: string, key: string, exchange: string, noWait: bool)
    | SetQos(prefetchCount: int, prefetchSize: int, global: bool)
    | StartConsume(queue: string, consumer: string, autoAck: bool, exclusive: bool,
                   noLocal: bool, noWait: bool)
    | Invoke(handler: Handler, routingKey: string, body: string)
    | Ack(tag: nat, multiple: bool)
    | CloseConnection
    | Sleep(wait: Duration)

  predicate IsInvoke(a: Action) { a.Invoke? }
  predicate IsAck(a: Action) { a.Ack? }
  predicate IsClose(a: Action) { a.CloseConnection? }
  predicate IsSleep(a: Action) { a.Sleep? }

  /** What every action a worker of `s` produces must look like: broker calls
      carry the configured topology, only registered handlers run, acks are
      single and only sent without auto-ack, and only positive sleeps happen. */
  predicate ConfiguredBy(act: Action, s: Subscriber)
  {
    match act
    case Dial(addr) => addr == s.addr
    case OpenChannel => true
    case DeclareExchange(e, kind, durable, autoDelete, internal, noWait) =>
      e == s.exchange && kind == "topic" && durable && !autoDelete && !internal && !noWait
    case DeclareQueue(q, durable, autoDelete, exclusive, noWait) =>
      q == s.queue && durable && autoDelete == s.autoDelete && !exclusive && !noWait
    case BindQueue(q, key, e, noWait) => q == s.queue && key == s.routeKey && e == s.exchange && !noWait
    case SetQos(count, size, global) => count == PrefetchCount && size == PrefetchSize && !global
    case StartConsume(q, consumer, autoAck, exclusive, noLocal, noWait) =>
      q == s.queue && consumer == ConsumerTag && autoAck == s.autoAck && !exclusive && noLocal && !noWait
    case Invoke(h, key, _) => Lookup(s, key) == Some(h)
    case Ack(_, multiple) => !multiple && !s.autoAck
    case CloseConnection => true
    case Sleep(w) => w > 0
  }

  /* ---------------------------------------------------------------- dispatch */

  /** One iteration of the consume loop: call the handler registered for the
      delivery's routing key, if any, then ack it singly unless auto-ack is on. */
  function Dispatch(s: Subscriber, d: Delivery): (acts: seq<Action>)
    ensures forall act :: act in acts ==> ConfiguredBy(act, s) && (act.Invoke? || act.Ack?)
    ensures !s.autoAck ==> |acts| > 0 && acts[|acts| - 1] == Ack(d.tag, false)
  {
    var invoked := match Lookup(s, d.routingKey)
                   case Some(h) => [Invoke(h, d.routingKey, d.body)]
                   case None => [];
    invoked + (if s.autoAck then [] else [Ack(d.tag, false)])
  }

  /** A delivery invokes exactly the handler registered for its key, once,
      with its key and body, or nothing; it is acked once, singly and by its
      own tag, unless auto-ack is on; nothing else happens. */
  lemma DispatchEffects(s: Subscriber, d: Delivery)
    ensures Filter(IsInvoke, Dispatch(s, d))
         == (if d.routingKey in s.callbacks then [Invoke(s.callbacks[d.routingKey], d.routingKey, d.body)] else [])
    ensures Filter(IsAck, Dispatch(s, d)) == (if s.autoAck then [] else [Ack(d.tag, false)])
    ensures Filter(IsClose, Dispatch(s, d)) == [] && Filter(IsSleep, Dispatch(s, d)) == []
  {
  }

  /** The consume loop over every delivery before the stream closes. */
  function ConsumeLoop(s: Subscriber, ds: seq<Delivery>): (acts: seq<Action>)
    ensures forall act :: act in acts ==> ConfiguredBy(act, s) && (act.Invoke? || act.Ack?)
  {
    if ds == [] then [] else Dispatch(s, ds[0]) + ConsumeLoop(s, ds[1..])
  }

  /** Reference definition: the handler calls the registry promises, one per
      delivery whose routing key is registered, in delivery order. */
  function RegisteredCalls(s: Subscriber, ds: seq<Delivery>): (calls: seq<Action>)
  {
    if ds == [] then []
    else if ds[0].routingKey in s.callbacks then
      [Invoke(s.callbacks[ds[0].routingKey], ds[0].routingKey, ds[0].body)] + RegisteredCalls(s, ds[1..])
    else RegisteredCalls(s, ds[1..])
  }

  /** Each registered delivery invokes its handler exactly once, with its own
      routing key and body; unregistered deliveries invoke nothing. */
  lemma {:induction false} ConsumeLoopInvocations(s: Subscriber, ds: seq<Delivery>)
    ensures Filter(IsInvoke, ConsumeLoop(s, ds)) == RegisteredCalls(s, ds)
  {
    if ds != [] {
      DispatchEffects(s, ds[0]);
      FilterConcat(IsInvoke, Dispatch(s, ds[0]), ConsumeLoop(s, ds[1..]));
      ConsumeLoopInvocations(s, ds[1..]);
    }
  }

  /** Reference definition: one single ack per delivery, by its own tag, in
      delivery order. */
  function AcksFor(ds: seq<Delivery>): seq<Action>
  {
    seq(|ds|, i requires 0 <= i < |ds| => Ack(ds[i].tag, false))
  }

  /** Without auto-ack every delivery is acked exactly once, by its own tag,
      in delivery order; with auto-ack nothing is acked. */
  lemma {:induction false} ConsumeLoopAcks(s: Subscriber, ds: seq<Delivery>)
    ensures Filter(IsAck, ConsumeLoop(s, ds)) == (if s.autoAck then [] else AcksFor(ds))
  {
    if ds != [] {
      var head := Dispatch(s, ds[0]);
      var rest := ConsumeLoop(s, ds[1..]);
      assert ConsumeLoop(s, ds) == head + rest;
      DispatchEffects(s, ds[0]);
      FilterConcat(IsAck, head, rest);
      ConsumeLoopAcks(s, ds[1..]);
      if !s.autoAck {
        AcksForCons(ds);
      }
    }
  }

  lemma AcksForCons(ds: seq<Delivery>)
    requires ds != []
    ensures AcksFor(ds) == [Ack(ds[0].tag, false)] + AcksFor(ds[1..])
  {
    var r := [Ack(ds[0].tag, false)] + AcksFor(ds[1..]);
    assert forall i :: 0 <= i < |ds| ==> AcksFor(ds)[i] == r[i];
  }

  /** The consume loop over two runs of deliveries is the loop over the first
      followed by the loop over the second. */
  lemma {:induction false} ConsumeLoopConcat(s: Subscriber, ds1: seq<Delivery>, ds2: seq<Delivery>)
    ensures ConsumeLoop(s, ds1 + ds2) == ConsumeLoop(s, ds1) + ConsumeLoop(s, ds2)
  {
    if ds1 != [] {
      var head := Dispatch(s, ds1[0]);
      var both := ds1 + ds2;
      assert both[0] == ds1[0] && both[1..] == ds1[1..] + ds2;
      assert ConsumeLoop(s, both) == head + ConsumeLoop(s, ds1[1..] + ds2);
      ConsumeLoopConcat(s, ds1[1..], ds2);
      assert ConsumeLoop(s, ds1) == head + ConsumeLoop(s, ds1[1..]);
    } else {
      assert ds1 + ds2 == ds2;
    }
  }

  /** The consume loop handles one delivery at a time: delivery i's handler
      call and ack (`Dispatch`) come after everything done for the deliveries
      before it and before anything done for the deliveries after it. */
  lemma ConsumeLoopOrder(s: Subscriber, ds: seq<Delivery>, i: nat)
    requires i < |ds|
    ensures ConsumeLoop(s, ds) == ConsumeLoop(s, ds[..i]) + Dispatch(s, ds[i]) + ConsumeLoop(s, ds[i + 1..])
  {
    var before, after := ds[..i], ds[i + 1..];
    assert ds == before + ([ds[i]] + after);
    assert ConsumeLoop(s, [ds[i]] + after) == Dispatch(s, ds[i]) + ConsumeLoop(s, after) by {
      ConsumeLoopConcat(s, [ds[i]], after);
      assert [ds[i]][1..] == [];
    }
    assert ConsumeLoop(s, ds) == ConsumeLoop(s, before) + ConsumeLoop(s, [ds[i]] + after) by {
      ConsumeLoopConcat(s, before, [ds[i]] + after);
    }
  }

  /** Without auto-ack, one delivery's log is its handler call, if any, then its ack. */
  lemma DispatchShape(s: Subscriber, d: Delivery)
    requires !s.autoAck
    ensures |Dispatch(s, d)| == 1 + |RegisteredCalls(s, [d])|
    ensures d.routingKey in s.callbacks ==>
      Dispatch(s, d) == [Invoke(s.callbacks[d.routingKey], d.routingKey, d.body), Ack(d.tag, false)]
    ensures d.routingKey !in s.callbacks ==> Dispatch(s, d) == [Ack(d.tag, false)]
  {
    assert [d][1..] == [];
  }

  /** Without auto-ack each delivery adds its ack and, when registered, its
      handler call, and the consume loop adds nothing else. */
  lemma {:induction false} ConsumeLoopLength(s: Subscriber, ds: seq<Delivery>)
    requires !s.autoAck
    ensures |ConsumeLoop(s, ds)| == |ds| + |RegisteredCalls(s, ds)|
  {
    if ds != [] {
      DispatchShape(s, ds[0]);
      ConsumeLoopLength(s, ds[1..]);
      assert [ds[0]][1..] == [];
    }
  }

  /** The consume loop neither closes the connection nor sleeps. */
  lemma {:induction false} ConsumeLoopQuiet(s: Subscriber, ds: seq<Delivery>)
    ensures Filter(IsClose, ConsumeLoop(s, ds)) == []
    ensures Filter(IsSleep, ConsumeLoop(s, ds)) == []
  {
    if ds != [] {
      DispatchEffects(s, ds[0]);
      FilterConcat(IsClose, Dispatch(s, ds[0]), ConsumeLoop(s, ds[1..]));
      FilterConcat(IsSleep, Dispatch(s, ds[0]), ConsumeLoop(s, ds[1..]));
      ConsumeLoopQuiet(s, ds[1..]);
    }
  }

  /* ------------------------------------------------------------------ worker */

  /** The broker's answers during one `startWorker` run. Answers to calls
      after the first failure are never consulted; `qosOk` is never consulted
      at all, because the source drops the result of `Qos`. */
  datatype Attempt = Attempt(
    dialOk: bool,
    channelOk: bool,
    exchangeOk: bool,
    queueOk: bool,
    bindOk: bool,
    qosOk: bool,
    consumeOk: bool,
    deliveries: seq<Delivery>)

  /** Every setup call whose failure restarts the worker succeeded. */
  predicate SetupSucceeded(a: Attempt)
  {
    a.dialOk && a.channelOk && a.exchangeOk && a.queueOk && a.bindOk && a.consumeOk
  }

  /** The setup stage an action belongs to, in the order `startWorker` makes
      the calls (0 = dial, 1 = channel, 2 = exchange, 3 = queue, 4 = bind,
      5 = Qos, 6 = consume), or -1 for an action that is no setup call. */
  function StageOf(act: Action): int
  {
    match act
    case Dial(_) => 0
    case OpenChannel => 1
    case DeclareExchange(_, _, _, _, _, _) => 2
    case DeclareQueue(_, _, _, _, _) => 3
    case BindQueue(_, _, _, _) => 4
    case SetQos(_, _, _) => 5
    case StartConsume(_, _, _, _, _, _) => 6
    case _ => -1
  }

  /** The broker calls of one setup, in the order the source makes them. */
  function SetupCalls(s: Subscriber): (calls: seq<Action>)
    ensures |calls| == 7
    ensures forall i :: 0 <= i < |calls| ==> ConfiguredBy(calls[i], s) && StageOf(calls[i]) == i
  {
    [ Dial(s.addr),
      OpenChannel,
      DeclareExchange(s.exchange, "topic", true, false, false, false),
      DeclareQueue(s.queue, true, s.autoDelete, false, false),
      BindQueue(s.queue, s.routeKey, s.exchange, false),
      SetQos(PrefetchCount, PrefetchSize, false),
      StartConsume(s.queue, ConsumerTag, s.autoAck, false, true, false) ]
  }

  /** How many setup calls an attempt issues before it fails or starts consuming. */
  function CallsIssued(a: Attempt): (n: nat)
    ensures 1 <= n <= 7
  {
    if !a.dialOk then 1
    else if !a.channelOk then 2
    else if !a.exchangeOk then 3
    else if !a.queueOk then 4
    else if !a.bindOk then 5
    else 7
  }

  datatype AttemptRun = AttemptRun(actions: seq<Action>, next: Duration)

  /** One `startWorker(lastWait)` run: the actions up to the restart and the
      wait it hands to `restartWorker`. */
  function StartWorker(s: Subscriber, lastWait: Duration, a: Attempt): (r: AttemptRun)
    ensures |r.actions| > 0 && r.actions[0] == Dial(s.addr)
    ensures SetupSucceeded(a) ==> r.next == 0
    ensures !SetupSucceeded(a) ==> r.next == AddDuration(lastWait, s.waitTime)
    ensures a.dialOk ==> r.actions[|r.actions| - 1] == CloseConnection
    ensures forall act :: act in r.actions ==> ConfiguredBy(act, s)
  {
    var issued := SetupCalls(s)[..CallsIssued(a)];
    assert forall act :: act in issued ==> ConfiguredBy(act, s);
    if !a.dialOk then
      AttemptRun(issued, AddDuration(lastWait, s.waitTime))
    else if !SetupSucceeded(a) then
      AttemptRun(issued + [CloseConnection], AddDuration(lastWait, s.waitTime))
    else
      AttemptRun(issued + ConsumeLoop(s, a.deliveries) + [CloseConnection], 0)
  }

  /** The actions an attempt takes after its setup calls: nothing after a
      failed dial, a close after any other failure, else the consume loop
      and a close. */
  function AfterSetup(s: Subscriber, a: Attempt): (tail: seq<Action>)
    ensures forall act :: act in tail ==> act.Invoke? || act.Ack? || act.CloseConnection?
  {
    if !a.dialOk then []
    else if !SetupSucceeded(a) then [CloseConnection]
    else ConsumeLoop(s, a.deliveries) + [CloseConnection]
  }

  /** An attempt's log is the setup calls it issues, in order, then actions
      that are no setup call. */
  lemma StartWorkerSplit(s: Subscriber, lastWait: Duration, a: Attempt)
    ensures StartWorker(s, lastWait, a).actions == SetupCalls(s)[..CallsIssued(a)] + AfterSetup(s, a)
  {
  }

  /** In a log made of the first n setup calls and then no setup call, setup
      call k occurs exactly when k < n. */
  lemma StageInLog(s: Subscriber, n: nat, tail: seq<Action>, k: int)
    requires n <= 7 && 0 <= k < 7
    requires forall act :: act in tail ==> act.Invoke? || act.Ack? || act.CloseConnection?
    ensures (exists act :: act in SetupCalls(s)[..n] + tail && StageOf(act) == k) <==> k < n
  {
    var calls := SetupCalls(s);
    var acts := calls[..n] + tail;
    if k < n {
      assert acts[k] == calls[k];
      assert acts[k] in acts && StageOf(acts[k]) == k;
    } else {
      forall act | act in acts
        ensures StageOf(act) != k
      {
        if act !in tail {
          var j :| 0 <= j < n && calls[..n][j] == act;
          assert calls[j] == act;
        }
      }
    }
  }

  /** Setup stops at the first failing stage: each setup call is made exactly
      when every stage before it succeeded, and the calls come in source order. */
  lemma StartWorkerStages(s: Subscriber, lastWait: Duration, a: Attempt)
    ensures var acts := StartWorker(s, lastWait, a).actions;
      && ((exists act :: act in acts && act.OpenChannel?) <==> a.dialOk)
      && ((exists act :: act in acts && act.DeclareExchange?) <==> a.dialOk && a.channelOk)
      && ((exists act :: act in acts && act.DeclareQueue?) <==> a.dialOk && a.channelOk && a.exchangeOk)
      && ((exists act :: act in acts && act.BindQueue?) <==> a.dialOk && a.channelOk && a.exchangeOk && a.queueOk)
      && ((exists act :: act in acts && act.SetQos?) <==>
            a.dialOk && a.channelOk && a.exchangeOk && a.queueOk && a.bindOk)
      && ((exists act :: act in acts && act.StartConsume?) <==>
            a.dialOk && a.channelOk && a.exchangeOk && a.queueOk && a.bindOk)
    ensures StartWorker(s, lastWait, a).actions[..CallsIssued(a)] == SetupCalls(s)[..CallsIssued(a)]
    ensures forall act :: act in StartWorker(s, lastWait, a).actions[CallsIssued(a)..] ==> StageOf(act) == -1
  {
    StartWorkerSplit(s, lastWait, a);
    SetupLogStages(s, a, AfterSetup(s, a), StartWorker(s, lastWait, a).actions);
    SetupLogTail(s, CallsIssued(a), AfterSetup(s, a), StartWorker(s, lastWait, a).actions);
  }

  /** `StartWorkerStages` for any log made of an attempt's setup calls and
      then no setup call. */
  lemma SetupLogStages(s: Subscriber, a: Attempt, tail: seq<Action>, acts: seq<Action>)
    requires forall act :: act in tail ==> act.Invoke? || act.Ack? || act.CloseConnection?
    requires acts == SetupCalls(s)[..CallsIssued(a)] + tail
    ensures (exists act :: act in acts && act.OpenChannel?) <==> a.dialOk
    ensures (exists act :: act in acts && act.DeclareExchange?) <==> a.dialOk && a.channelOk
    ensures (exists act :: act in acts && act.DeclareQueue?) <==> a.dialOk && a.channelOk && a.exchangeOk
    ensures (exists act :: act in acts && act.BindQueue?) <==> a.dialOk && a.channelOk && a.exchangeOk && a.queueOk
    ensures (exists act :: act in acts && act.SetQos?) <==> a.dialOk && a.channelOk && a.exchangeOk && a.queueOk && a.bindOk
    ensures (exists act :: act in acts && act.StartConsume?) <==> a.dialOk && a.channelOk && a.exchangeOk && a.queueOk && a.bindOk
    ensures acts[..CallsIssued(a)] == SetupCalls(s)[..CallsIssued(a)]
  {
    var n := CallsIssued(a);
    assert (exists act :: act in acts && act.OpenChannel?) <==> a.dialOk by {
      assert 1 < n <==> a.dialOk;
      StageInLog(s, n, tail, 1);
      assert forall act: Action :: act.OpenChannel? <==> StageOf(act) == 1;
    }
    assert (exists act :: act in acts && act.DeclareExchange?) <==> a.dialOk && a.channelOk by {
      assert 2 < n <==> a.dialOk && a.channelOk;
      StageInLog(s, n, tail, 2);
      assert forall act: Action :: act.DeclareExchange? <==> StageOf(act) == 2;
    }
    assert (exists act :: act in acts && act.DeclareQueue?) <==> a.dialOk && a.channelOk && a.exchangeOk by {
      assert 3 < n <==> a.dialOk && a.channelOk && a.exchangeOk;
      StageInLog(s, n, tail, 3);
      assert forall act: Action :: act.DeclareQueue? <==> StageOf(act) == 3;
    }
    assert (exists act :: act in acts && act.BindQueue?) <==> a.dialOk && a.channelOk && a.exchangeOk && a.queueOk by {
      assert 4 < n <==> a.dialOk && a.channelOk && a.exchangeOk && a.queueOk;
      StageInLog(s, n, tail, 4);
      assert forall act: Action :: act.BindQueue? <==> StageOf(act) == 4;
    }
    assert (exists act :: act in acts && act.SetQos?) <==> a.dialOk && a.channelOk && a.exchangeOk && a.queueOk && a.bindOk by {
      assert 5 < n <==> a.dialOk && a.channelOk && a.exchangeOk && a.queueOk && a.bindOk;
      StageInLog(s, n, tail, 5);
      assert forall act: Action :: act.SetQos? <==> StageOf(act) == 5;
    }
    assert (exists act :: act in acts && act.StartConsume?) <==> a.dialOk && a.channelOk && a.exchangeOk && a.queueOk && a.bindOk by {
      assert 6 < n <==> a.dialOk && a.channelOk && a.exchangeOk && a.queueOk && a.bindOk;
      StageInLog(s, n, tail, 6);
      assert forall act: Action :: act.StartConsume? <==> StageOf(act) == 6;
    }
    assert acts[..n] == SetupCalls(s)[..n];
  }

  /** After the setup prefix no setup call is made again. */
  lemma SetupLogTail(s: Subscriber, n: nat, tail: seq<Action>, acts: seq<Action>)
    requires n <= 7
    requires forall act :: act in tail ==> act.Invoke? || act.Ack? || act.CloseConnection?
    requires acts == SetupCalls(s)[..n] + tail
    ensures forall act :: act in acts[n..] ==> StageOf(act) == -1
  {
    assert acts[n..] == tail;
  }

  /** The Qos outcome never changes what a worker does. */
  lemma QosOutcomeIgnored(s: Subscriber, lastWait: Duration, a: Attempt)
    ensures StartWorker(s, lastWait, a) == StartWorker(s, lastWait, a.(qosOk := !a.qosOk))
  {
  }

  /** An effect no setup call produces does not occur among the calls issued. */
  lemma IssuedCallsFilter(p: Action -> bool, s: Subscriber, a: Attempt)
    requires forall i :: 0 <= i < 7 ==> !p(SetupCalls(s)[i])
    ensures Filter(p, SetupCalls(s)[..CallsIssued(a)]) == []
  {
    var issued := SetupCalls(s)[..CallsIssued(a)];
    assert forall i :: 0 <= i < |issued| ==> issued[i] == SetupCalls(s)[i];
    FilterNone(p, issued);
  }

  /** A failed dial is the only case in which nothing is closed; otherwise the
      connection is closed exactly once, whatever stage failed. */
  lemma StartWorkerClosesOnce(s: Subscriber, lastWait: Duration, a: Attempt)
    ensures |Filter(IsClose, StartWorker(s, lastWait, a).actions)| == (if a.dialOk then 1 else 0)
    ensures Filter(IsSleep, StartWorker(s, lastWait, a).actions) == []
  {
    var issued := SetupCalls(s)[..CallsIssued(a)];
    IssuedCallsFilter(IsClose, s, a);
    IssuedCallsFilter(IsSleep, s, a);
    if a.dialOk && !SetupSucceeded(a) {
      FilterConcat(IsClose, issued, [CloseConnection]);
      FilterConcat(IsSleep, issued, [CloseConnection]);
    } else if SetupSucceeded(a) {
      var loop := ConsumeLoop(s, a.deliveries);
      ConsumeLoopQuiet(s, a.deliveries);
      FilterConcat(IsClose, issued, loop);
      FilterConcat(IsClose, issued + loop, [CloseConnection]);
      FilterConcat(IsSleep, issued, loop);
      FilterConcat(IsSleep, issued + loop, [CloseConnection]);
    }
  }

  /** Handlers run only in an attempt whose setup completed, once per
      registered delivery; acks are sent only there, once per delivery by
      its own tag. */
  lemma StartWorkerDispatch(s: Subscriber, lastWait: Duration, a: Attempt)
    ensures Filter(IsInvoke, StartWorker(s, lastWait, a).actions)
         == (if SetupSucceeded(a) then RegisteredCalls(s, a.deliveries) else [])
    ensures Filter(IsAck, StartWorker(s, lastWait, a).actions)
         == (if SetupSucceeded(a) && !s.autoAck then AcksFor(a.deliveries) else [])
  {
    StartWorkerFilter(IsInvoke, s, lastWait, a);
    StartWorkerFilter(IsAck, s, lastWait, a);
    if SetupSucceeded(a) {
      ConsumeLoopInvocations(s, a.deliveries);
      ConsumeLoopAcks(s, a.deliveries);
    }
  }

  /** For effects that no setup call and no close produces, an attempt shows
      exactly those of its consume loop, and none when setup failed. */
  lemma StartWorkerFilter(p: Action -> bool, s: Subscriber, lastWait: Duration, a: Attempt)
    requires forall i :: 0 <= i < 7 ==> !p(SetupCalls(s)[i])
    requires !p(CloseConnection)
    ensures Filter(p, StartWorker(s, lastWait, a).actions)
         == (if SetupSucceeded(a) then Filter(p, ConsumeLoop(s, a.deliveries)) else [])
  {
    var issued := SetupCalls(s)[..CallsIssued(a)];
    IssuedCallsFilter(p, s, a);
    FilterNone(p, [CloseConnection]);
    if a.dialOk && !SetupSucceeded(a) {
      FilterConcat(p, issued, [CloseConnection]);
    } else if SetupSucceeded(a) {
      var loop := ConsumeLoop(s, a.deliveries);
      assert StartWorker(s, lastWait, a).actions == issued + loop + [CloseConnection];
      FilterConcat(p, issued, loop);
      FilterConcat(p, issued + loop, [CloseConnection]);
    }
  }

  /** `restartWorker(wait)`: sleep only for a positive wait, and for exactly it. */
  function RestartSleep(wait: Duration): seq<Action>
  {
    if wait > 0 then [Sleep(wait)] else []
  }

  datatype WorkerRun = WorkerRun(actions: seq<Action>, waits: seq<Duration>)

  /** A worker driven through `attempts`, starting from `startWorker(lastWait)`.
      `waits[i]` is the value attempt i passes to `restartWorker`, which is
      also the `lastWait` of attempt i + 1. */
  function RunWorker(s: Subscriber, lastWait: Duration, attempts: seq<Attempt>): (r: WorkerRun)
    ensures |r.waits| == |attempts|
    decreases |attempts|
  {
    if attempts == [] then WorkerRun([], [])
    else
      var first := StartWorker(s, lastWait, attempts[0]);
      var rest := RunWorker(s, first.next, attempts[1..]);
      WorkerRun(first.actions + RestartSleep(first.next) + rest.actions, [first.next] + rest.waits)
  }

  /** A worker dials at once: no sleep precedes its first attempt, whatever
      wait it was started with. */
  lemma WorkerStartsWithDial(s: Subscriber, lastWait: Duration, attempts: seq<Attempt>)
    requires attempts != []
    ensures |RunWorker(s, lastWait, attempts).actions| > 0
    ensures RunWorker(s, lastWait, attempts).actions[0] == Dial(s.addr)
  {
  }

  /** Whatever the broker answers, every broker call a worker makes carries
      the configured address and topology, every handler it invokes is the
      one registered for the delivery's key, every ack is single and sent
      only without auto-ack, and every sleep is positive. */
  lemma {:induction false} WorkerConfigured(s: Subscriber, lastWait: Duration, attempts: seq<Attempt>)
    ensures forall act :: act in RunWorker(s, lastWait, attempts).actions ==> ConfiguredBy(act, s)
    decreases |attempts|
  {
    if attempts != [] {
      var first := StartWorker(s, lastWait, attempts[0]);
      WorkerConfigured(s, first.next, attempts[1..]);
    }
  }

  /** The wait carried into attempt i. */
  function CarriedInto(lastWait: Duration, waits: seq<Duration>, i: nat): Duration
    requires i <= |waits|
  {
    if i == 0 then lastWait else waits[i - 1]
  }

  /** The backoff rule: a setup failure adds `waitTime` to the carried wait;
      a closed delivery stream resets it to zero. */
  lemma {:induction false} WorkerWaits(s: Subscriber, lastWait: Duration, attempts: seq<Attempt>)
    ensures forall i :: 0 <= i < |attempts| ==>
      RunWorker(s, lastWait, attempts).waits[i]
        == (if SetupSucceeded(attempts[i]) then 0
            else AddDuration(CarriedInto(lastWait, RunWorker(s, lastWait, attempts).waits, i), s.waitTime))
    decreases |attempts|
  {
    if attempts != [] {
      var r := RunWorker(s, lastWait, attempts);
      var first := StartWorker(s, lastWait, attempts[0]);
      var rest := RunWorker(s, first.next, attempts[1..]);
      WorkerWaits(s, first.next, attempts[1..]);
      forall i | 0 <= i < |attempts|
        ensures r.waits[i] == (if SetupSucceeded(attempts[i]) then 0
                               else AddDuration(CarriedInto(lastWait, r.waits, i), s.waitTime))
      {
        if i > 0 {
          assert r.waits[i] == rest.waits[i - 1];
          assert attempts[i] == attempts[1..][i - 1];
          assert CarriedInto(lastWait, r.waits, i) == CarriedInto(first.next, rest.waits, i - 1);
        }
      }
    }
  }

  /** k consecutive setup failures starting from carried wait w0 leave the
      wait at w0 + k * waitTime, as long as no int64 overflow occurs. */
  lemma {:induction false} BackoffAccumulates(s: Subscriber, w0: Duration, attempts: seq<Attempt>)
    requires forall i :: 0 <= i < |attempts| ==> !SetupSucceeded(attempts[i])
    requires MinInt64 <= w0 + |attempts| * s.waitTime <= MaxInt64
    ensures forall i :: 0 <= i < |attempts| ==> RunWorker(s, w0, attempts).waits[i] == w0 + (i + 1) * s.waitTime
    decreases |attempts|
  {
    if attempts != [] {
      var wt := s.waitTime;
      var n := |attempts| - 1;
      assert |attempts| * wt == n * wt + wt;
      assert MinInt64 <= w0 + wt <= MaxInt64 by {
        FirstStepInRange(w0, wt, n);
      }
      var first := StartWorker(s, w0, attempts[0]);
      assert first.next == w0 + wt;
      var rest := RunWorker(s, first.next, attempts[1..]);
      BackoffAccumulates(s, first.next, attempts[1..]);
      var r := RunWorker(s, w0, attempts);
      assert r.waits == [first.next] + rest.waits;
      forall i | 0 <= i < |attempts|
        ensures r.waits[i] == w0 + (i + 1) * wt
      {
        if i > 0 {
          assert r.waits[i] == rest.waits[i - 1];
          assert rest.waits[i - 1] == first.next + i * wt;
          assert (i + 1) * wt == i * wt + wt;
        }
      }
    }
  }

  /** The first step w0 + wt lies between w0 and w0 + (n + 1) * wt, so it
      fits in an int64 when both ends do. */
  lemma FirstStepInRange(w0: Duration, wt: int, n: nat)
    requires MinInt64 <= w0 + (n + 1) * wt <= MaxInt64
    ensures MinInt64 <= w0 + wt <= MaxInt64
  {
    assert (n + 1) * wt == n * wt + wt;
    if wt >= 0 {
      MulNonNegative(n, wt);
    } else {
      MulNonNegative(n, -wt);
      assert n * -wt == -(n * wt);
    }
  }

  lemma MulNonNegative(a: nat, b: int)
    requires 0 <= b
    ensures 0 <= a * b
  {
  }

  /** Repeated setup failures from a fresh worker give waits that never
      decrease and are each at least `waitTime`. */
  lemma {:induction false} BackoffNonDecreasing(s: Subscriber, attempts: seq<Attempt>)
    requires forall i :: 0 <= i < |attempts| ==> !SetupSucceeded(attempts[i])
    requires 0 <= s.waitTime
    requires |attempts| * s.waitTime <= MaxInt64
    ensures forall i :: 0 <= i < |attempts| ==> s.waitTime <= RunWorker(s, 0, attempts).waits[i]
    ensures forall i, j :: 0 <= i <= j < |attempts| ==>
      RunWorker(s, 0, attempts).waits[i] <= RunWorker(s, 0, attempts).waits[j]
  {
    BackoffAccumulates(s, 0, attempts);
    var w := RunWorker(s, 0, attempts).waits;
    forall i, j | 0 <= i <= j < |attempts|
      ensures s.waitTime <= w[i] <= w[j]
    {
      MulMonotone(1, i + 1, s.waitTime);
      MulMonotone(i + 1, j + 1, s.waitTime);
    }
  }

  lemma MulMonotone(a: nat, b: nat, c: int)
    requires a <= b && 0 <= c
    ensures a * c <= b * c
  {
    MulNonNegative(b - a, c);
    assert b * c - a * c == (b - a) * c;
  }

  /** After a mid-stream closure the next failing attempt waits only
      `waitTime`, never the wait accumulated before the closure. */
  lemma ClosureResetsBackoff(s: Subscriber, lastWait: Duration, attempts: seq<Attempt>, i: nat)
    requires i + 1 < |attempts|
    requires SetupSucceeded(attempts[i]) && !SetupSucceeded(attempts[i + 1])
    ensures RunWorker(s, lastWait, attempts).waits[i] == 0
    ensures RunWorker(s, lastWait, attempts).waits[i + 1] == s.waitTime
  {
    WorkerWaits(s, lastWait, attempts);
  }

  /** The positive waits, as the sleeps `restartWorker` takes. */
  function SleepsFor(waits: seq<Duration>): (sleeps: seq<Action>)
  {
    if waits == [] then [] else RestartSleep(waits[0]) + SleepsFor(waits[1..])
  }

  /** The worker sleeps exactly once per restart with a positive carried
      wait, for exactly that wait, and at no other time. */
  lemma {:induction false} WorkerSleeps(s: Subscriber, lastWait: Duration, attempts: seq<Attempt>)
    ensures Filter(IsSleep, RunWorker(s, lastWait, attempts).actions)
         == SleepsFor(RunWorker(s, lastWait, attempts).waits)
    decreases |attempts|
  {
    if attempts != [] {
      var first := StartWorker(s, lastWait, attempts[0]);
      var rest := RunWorker(s, first.next, attempts[1..]);
      var r := RunWorker(s, lastWait, attempts);
      StartWorkerClosesOnce(s, lastWait, attempts[0]);
      WorkerSleeps(s, first.next, attempts[1..]);
      SleepStep(first.actions, first.next, rest.actions, rest.waits);
    }
  }

  /** One restart step of `WorkerSleeps`: an attempt that never sleeps,
      followed by `restartWorker`'s sleep, followed by the rest of the run. */
  lemma SleepStep(attempt: seq<Action>, wait: Duration, rest: seq<Action>, restWaits: seq<Duration>)
    requires Filter(IsSleep, attempt) == []
    requires Filter(IsSleep, rest) == SleepsFor(restWaits)
    ensures Filter(IsSleep, attempt + RestartSleep(wait) + rest) == SleepsFor([wait] + restWaits)
  {
    var restart := RestartSleep(wait);
    assert Filter(IsSleep, attempt + restart) == restart by {
      FilterConcat(IsSleep, attempt, restart);
      RestartSleepIsSleep(wait);
      assert [] + restart == restart;
    }
    assert Filter(IsSleep, attempt + restart + rest) == restart + SleepsFor(restWaits) by {
      FilterConcat(IsSleep, attempt + restart, rest);
    }
    SleepsForCons(wait, restWaits);
  }

  lemma RestartSleepIsSleep(wait: Duration)
    ensures Filter(IsSleep, RestartSleep(wait)) == RestartSleep(wait)
  {
  }

  lemma SleepsForCons(wait: Duration, waits: seq<Duration>)
    ensures SleepsFor([wait] + waits) == RestartSleep(wait) + SleepsFor(waits)
  {
  }

  /** A restart sleeps and does nothing else, so an effect other than a sleep
      shows only in the attempt before it and the run after it. */
  lemma RestartStep(p: Action -> bool, attempt: seq<Action>, wait: Duration, rest: seq<Action>)
    requires !p(Sleep(wait))
    ensures Filter(p, attempt + RestartSleep(wait) + rest) == Filter(p, attempt) + Filter(p, rest)
  {
    var restart := RestartSleep(wait);
    assert Filter(p, attempt + restart) == Filter(p, attempt) by {
      FilterNone(p, restart);
      FilterConcat(p, attempt, restart);
      assert Filter(p, attempt) + [] == Filter(p, attempt);
    }
    FilterConcat(p, attempt + restart, rest);
  }

  /** One restart step of a worker: the wait carried into the attempt, the
      attempt, and the wait it hands to `restartWorker`. */
  datatype Step = Step(carried: Duration, attempt: Attempt, handedOver: Duration)

  /** Attempt i starts from the wait attempt i - 1 handed over (the starting
      wait for attempt 0) and hands over `waits[i]`. */
  function Steps(lastWait: Duration, attempts: seq<Attempt>, waits: seq<Duration>): (steps: seq<Step>)
    requires |waits| == |attempts|
  {
    seq(|attempts|, i requires 0 <= i < |attempts| => Step(CarriedInto(lastWait, waits, i), attempts[i], waits[i]))
  }

  /** Reference definition of a worker's log: every step is a fresh
      `startWorker` run from its carried wait, followed by the sleep
      `restartWorker` takes for the wait handed over, laid end to end. */
  function StepsLog(s: Subscriber, steps: seq<Step>): (acts: seq<Action>)
  {
    if steps == [] then []
    else StartWorker(s, steps[0].carried, steps[0].attempt).actions + RestartSleep(steps[0].handedOver)
         + StepsLog(s, steps[1..])
  }

  /** Every restart runs `startWorker` again: the worker's log is each
      attempt's own run, from the wait the attempt before handed over, and
      that restart's sleep, laid end to end. */
  lemma {:induction false} RunWorkerRestarts(s: Subscriber, lastWait: Duration, attempts: seq<Attempt>)
    ensures RunWorker(s, lastWait, attempts).actions
         == StepsLog(s, Steps(lastWait, attempts, RunWorker(s, lastWait, attempts).waits))
    decreases |attempts|
  {
    if attempts != [] {
      var r := RunWorker(s, lastWait, attempts);
      var first := StartWorker(s, lastWait, attempts[0]);
      var rest := RunWorker(s, first.next, attempts[1..]);
      var steps := Steps(lastWait, attempts, r.waits);
      assert r.waits == [first.next] + rest.waits;
      assert steps[0] == Step(lastWait, attempts[0], first.next);
      assert steps[1..] == Steps(first.next, attempts[1..], rest.waits) by {
        StepsCons(lastWait, attempts, first.next, rest.waits);
      }
      RunWorkerRestarts(s, first.next, attempts[1..]);
    }
  }

  lemma StepsCons(lastWait: Duration, attempts: seq<Attempt>, wait: Duration, restWaits: seq<Duration>)
    requires attempts != [] && |restWaits| == |attempts| - 1
    ensures Steps(lastWait, attempts, [wait] + restWaits)[1..] == Steps(wait, attempts[1..], restWaits)
  {
    var waits := [wait] + restWaits;
    var steps := Steps(lastWait, attempts, waits);
    var restSteps := Steps(wait, attempts[1..], restWaits);
    forall i | 0 <= i < |restSteps|
      ensures steps[1..][i] == restSteps[i]
    {
      assert CarriedInto(lastWait, waits, i + 1) == CarriedInto(wait, restWaits, i);
    }
  }

  predicate IsDial(a: Action) { a.Dial? }

  /** Every attempt dials exactly once, first, and never again. */
  lemma StartWorkerDialsOnce(s: Subscriber, lastWait: Duration, a: Attempt)
    ensures Filter(IsDial, StartWorker(s, lastWait, a).actions) == [Dial(s.addr)]
  {
    StartWorkerSplit(s, lastWait, a);
    SetupLogDials(s, CallsIssued(a), AfterSetup(s, a));
  }

  /** `StartWorkerDialsOnce` for any log made of at least the first setup
      call and then no setup call. */
  lemma SetupLogDials(s: Subscriber, n: nat, tail: seq<Action>)
    requires 1 <= n <= 7
    requires forall act :: act in tail ==> act.Invoke? || act.Ack? || act.CloseConnection?
    ensures Filter(IsDial, SetupCalls(s)[..n] + tail) == [Dial(s.addr)]
  {
    var calls := SetupCalls(s);
    var later := calls[1..n];
    assert Filter(IsDial, later) == [] by {
      assert forall i :: 0 <= i < |later| ==> later[i] == calls[i + 1] && StageOf(later[i]) == i + 1;
      assert forall act: Action :: act.Dial? ==> StageOf(act) == 0;
      FilterNone(IsDial, later);
    }
    assert Filter(IsDial, tail) == [] by {
      assert forall i :: 0 <= i < |tail| ==> tail[i] in tail;
      FilterNone(IsDial, tail);
    }
    assert Filter(IsDial, calls[..n]) == [Dial(s.addr)] by {
      assert calls[..n] == [Dial(s.addr)] + later;
      FilterConcat(IsDial, [Dial(s.addr)], later);
    }
    FilterConcat(IsDial, calls[..n], tail);
  }

  /** Reference: one dial of the configured address per attempt. */
  function DialsFor(s: Subscriber, attempts: seq<Attempt>): (dials: seq<Action>)
  {
    seq(|attempts|, _ => Dial(s.addr))
  }

  /** The worker dials anew on every restart: once per attempt, and at no
      other time. */
  lemma {:induction false} WorkerDials(s: Subscriber, lastWait: Duration, attempts: seq<Attempt>)
    ensures Filter(IsDial, RunWorker(s, lastWait, attempts).actions) == DialsFor(s, attempts)
    decreases |attempts|
  {
    if attempts != [] {
      var first := StartWorker(s, lastWait, attempts[0]);
      var rest := RunWorker(s, first.next, attempts[1..]);
      assert Filter(IsDial, first.actions + RestartSleep(first.next) + rest.actions)
          == [Dial(s.addr)] + Filter(IsDial, rest.actions) by {
        RestartStep(IsDial, first.actions, first.next, rest.actions);
        StartWorkerDialsOnce(s, lastWait, attempts[0]);
      }
      WorkerDials(s, first.next, attempts[1..]);
      assert [Dial(s.addr)] + DialsFor(s, attempts[1..]) == DialsFor(s, attempts);
    }
  }

  /** Reference: how many attempts got a connection. */
  function DialedCount(attempts: seq<Attempt>): (n: nat)
  {
    if attempts == [] then 0 else (if attempts[0].dialOk then 1 else 0) + DialedCount(attempts[1..])
  }

  /** Every connection the worker gets is closed exactly once before the
      restart, so the closes number the attempts whose dial succeeded. */
  lemma {:induction false} WorkerCloses(s: Subscriber, lastWait: Duration, attempts: seq<Attempt>)
    ensures |Filter(IsClose, RunWorker(s, lastWait, attempts).actions)| == DialedCount(attempts)
    decreases |attempts|
  {
    if attempts != [] {
      var first := StartWorker(s, lastWait, attempts[0]);
      var rest := RunWorker(s, first.next, attempts[1..]);
      assert Filter(IsClose, first.actions + RestartSleep(first.next) + rest.actions)
          == Filter(IsClose, first.actions) + Filter(IsClose, rest.actions) by {
        RestartStep(IsClose, first.actions, first.next, rest.actions);
      }
      StartWorkerClosesOnce(s, lastWait, attempts[0]);
      WorkerCloses(s, first.next, attempts[1..]);
    }
  }

  /** Reference: the handler calls of the attempts whose setup completed, in
      attempt order. */
  function CompletedCalls(s: Subscriber, attempts: seq<Attempt>): (calls: seq<Action>)
  {
    if attempts == [] then []
    else (if SetupSucceeded(attempts[0]) then RegisteredCalls(s, attempts[0].deliveries) else [])
         + CompletedCalls(s, attempts[1..])
  }

  /** Reference: the acks of the attempts whose setup completed, in attempt
      order; none under auto-ack. */
  function CompletedAcks(s: Subscriber, attempts: seq<Attempt>): (acks: seq<Action>)
  {
    if attempts == [] then []
    else (if SetupSucceeded(attempts[0]) && !s.autoAck then AcksFor(attempts[0].deliveries) else [])
         + CompletedAcks(s, attempts[1..])
  }

  /** Across restarts, handlers run once per registered delivery of every
      attempt that started consuming, in order, and never elsewhere; the
      same holds for acks without auto-ack. */
  lemma {:induction false} WorkerDispatch(s: Subscriber, lastWait: Duration, attempts: seq<Attempt>)
    ensures Filter(IsInvoke, RunWorker(s, lastWait, attempts).actions) == CompletedCalls(s, attempts)
    ensures Filter(IsAck, RunWorker(s, lastWait, attempts).actions) == CompletedAcks(s, attempts)
    decreases |attempts|
  {
    if attempts != [] {
      var first := StartWorker(s, lastWait, attempts[0]);
      var rest := RunWorker(s, first.next, attempts[1..]);
      StartWorkerDispatch(s, lastWait, attempts[0]);
      RestartStep(IsInvoke, first.actions, first.next, rest.actions);
      RestartStep(IsAck, first.actions, first.next, rest.actions);
      WorkerDispatch(s, first.next, attempts[1..]);
    }
  }

  /* ------------------------------------------------------------------- start */

  /** One `go sub.startWorker(0)`: the worker's index, the queue it will
      declare, bind and consume from, and its initial carried wait. */
  datatype Launch = Launch(index: nat, queue: string, initialWait: Duration)

  datatype Started = Started(sub: Subscriber, workers: seq<Launch>)

  /** `Start`: resolve an empty queue name once from `randomName` (the
      outcome of `util.RandomString(10)`), then launch `pool` workers. */
  method Start(s: Subscriber, randomName: Result<string>) returns (r: Result<Started>)
    requires randomName.Ok? ==> |randomName.value| == QueueNameLength
    ensures s.queue == "" && randomName.Err? ==> r.Err? && r.error.Fatal?
    ensures r.Err? ==> s.queue == "" && randomName.Err?
    ensures r.Ok? ==> r.value.sub == s.(queue := r.value.sub.queue)
    ensures r.Ok? && s.queue != "" ==> r.value.sub.queue == s.queue
    ensures r.Ok? && s.queue == "" ==> r.value.sub.queue == randomName.value
    ensures r.Ok? ==> |r.value.sub.queue| > 0
    ensures r.Ok? ==> |r.value.workers| == (if s.pool <= 0 then 0 else s.pool)
    ensures r.Ok? ==> forall j :: 0 <= j < |r.value.workers| ==>
              r.value.workers[j] == Launch(j, r.value.sub.queue, 0)
  {
    var sub := s;
    if s.queue == "" {
      match randomName
      case Err(e) => return Err(Fatal("random queue name"));
      case Ok(name) => sub := s.(queue := name);
    }
    var workers: seq<Launch> := [];
    var i := 0;
    while i < sub.pool
      invariant 0 <= i && (sub.pool <= 0 ==> i == 0) && (sub.pool > 0 ==> i <= sub.pool)
      invariant |workers| == i
      invariant forall j :: 0 <= j < i ==> workers[j] == Launch(j, sub.queue, 0)
    {
      workers := workers + [Launch(i, sub.queue, 0)];
      i := i + 1;
    }
    return Ok(Started(sub, workers));
  }

  /** Every worker a started subscriber runs declares, binds and consumes
      the one queue `Start` resolved, whatever the broker answers. */
  lemma WorkersShareQueue(st: Started, j: nat, attempts: seq<Attempt>)
    requires j < |st.workers|
    requires st.workers[j].queue == st.sub.queue
    ensures forall act :: act in RunWorker(st.sub, st.workers[j].initialWait, attempts).actions ==>
      (act.DeclareQueue? || act.BindQueue? || act.StartConsume?) ==> act.queue == st.workers[j].queue
  {
    WorkerConfigured(st.sub, st.workers[j].initialWait, attempts);
  }
}
