/**
 Outbox, broker and idempotent consumer as a transition system: rows are published at least
 once, messages are delivered any number of times and handled concurrently, several routes per
 message commit in transactions of their own, and anything may fail or crash in between.
 */
module Delivery {

  /******* Messages *******/

  /** What a message body decodes to. A missing or falsy field is an empty string. */
  datatype Body = Undecodable | Envelope(event: string, kind: string)

  /** An entry of RabbitMQ's `x-death` header, and the headers the consumer reads. */
  datatype Death = Death(queue: string, reason: string, count: nat)
  datatype Headers = Headers(deaths: seq<Death>, attempts: nat)
  datatype Message = Message(body: Body, headers: Headers)

  const FRESH := Headers([], 0)

  function SumCounts(deaths: seq<Death>): nat {
    if deaths == [] then 0 else deaths[0].count + SumCounts(deaths[1..])
  }

  function DeliveryAttempts(h: Headers): nat {
    if h.deaths != [] then SumCounts(h.deaths) else h.attempts
  }

  /** The broker records that a message left a queue: it counts per queue and reason. */
  function AddDeath(deaths: seq<Death>, queue: string, reason: string): (r: seq<Death>)
    ensures r != [] && SumCounts(r) == SumCounts(deaths) + 1
  {
    if deaths == [] then [Death(queue, reason, 1)]
    else if deaths[0].queue == queue && deaths[0].reason == reason then
      [deaths[0].(count := deaths[0].count + 1)] + deaths[1..]
    else
      [deaths[0]] + AddDeath(deaths[1..], queue, reason)
  }

  function Rejected(m: Message): Message {
    m.(headers := m.headers.(deaths := AddDeath(m.headers.deaths, "worker.events", "rejected")))
  }

  function Expired(m: Message): Message {
    m.(headers := m.headers.(deaths := AddDeath(m.headers.deaths, "worker.events.retry", "expired")))
  }

  /******* State *******/

  /** An outbox row; the payload of a `wellFormed` one is a JSON object. */
  datatype Row = Row(kind: string, wellFormed: bool, created: int, published: bool, retries: nat)

  /** What a publisher's session is to write to a row: its publication, or a new retry count. */
  datatype Write = Publish | Retry(count: nat)

  datatype Route = Route(consumer: string, deferred: bool)

  /** The registered routes and the consumer's delivery limit. */
  datatype Config = Config(routes: map<string, seq<Route>>, maxAttempts: nat)

  /**
   The transaction of one route: has it inserted the idempotency row, has the handler run?
   `Aborted` is rolled back after an integrity error and about to look for the row again.
   */
  datatype Tx = NoTx | Open(inserted: bool, ran: bool) | Aborted

  datatype Phase = Routing(route: nat, tx: Tx) | Failed | DeadLettered

  /** A message being handled. If it is `lost`, its channel is gone and the broker has requeued it. */
  datatype Unacked = Unacked(message: Message, lost: bool, phase: Phase)

  type Key = (string, string)

  /**
   `processed` holds the idempotency rows by consumer and event. `applied` counts the commits
   of a handler's effects, and `publishers` the uncommitted writes of every publisher's session.
   */
  datatype State = State(
    outbox: map<string, Row>,
    publishers: map<nat, map<string, Write>>,
    worker: multiset<Message>,
    retry: multiset<Message>,
    flight: map<nat, Unacked>,
    dead: multiset<Body>,
    processed: set<Key>,
    applied: multiset<Key>)

  const EMPTY := State(map[], map[], multiset{}, multiset{}, map[], multiset{}, {}, multiset{})

  function RoutesOf(cfg: Config, kind: string): seq<Route> {
    if kind in cfg.routes then cfg.routes[kind] else []
  }

  predicate Malformed(body: Body) {
    body.Undecodable? || body.kind == ""
  }

  /** Where handling starts: at the first route, or with an error when there is none. */
  function Start(cfg: Config, body: Body): Phase {
    if body.Undecodable? || RoutesOf(cfg, body.kind) == [] then Failed else Routing(0, NoTx)
  }

  /** The last failure before the message is given up. */
  predicate GivesUp(cfg: Config, m: Message) {
    Malformed(m.body) || DeliveryAttempts(m.headers) + 1 >= cfg.maxAttempts
  }

  predicate InRoute(cfg: Config, s: State, tag: nat) {
    && tag in s.flight && s.flight[tag].phase.Routing? && s.flight[tag].message.body.Envelope?
    && s.flight[tag].phase.route < |RoutesOf(cfg, s.flight[tag].message.body.kind)|
  }

  function RouteOf(cfg: Config, s: State, tag: nat): Route
    requires InRoute(cfg, s, tag)
  {
    RoutesOf(cfg, s.flight[tag].message.body.kind)[s.flight[tag].phase.route]
  }

  /** The idempotency key of the route being run. */
  function KeyOf(cfg: Config, s: State, tag: nat): Key
    requires InRoute(cfg, s, tag)
  {
    (RouteOf(cfg, s, tag).consumer, s.flight[tag].message.body.event)
  }

  /** An open transaction holds the unique index entry of the key. */
  predicate Holds(cfg: Config, s: State, tag: nat, key: Key) {
    && InRoute(cfg, s, tag) && KeyOf(cfg, s, tag) == key
    && s.flight[tag].phase.tx.Open? && s.flight[tag].phase.tx.inserted
  }

  predicate InTx(cfg: Config, s: State, tag: nat) {
    InRoute(cfg, s, tag) && s.flight[tag].phase.tx.Open?
  }

  /******* Events *******/

  datatype Event =
    | Emit(id: string, kind: string, wellFormed: bool, created: int)  // a business transaction commits an outbox row
    | Foreign(message: Message)                               // somebody else puts a message on the worker queue
    | PublishOk(publisher: nat, id: string)                   // the broker has the message and confirms it
    | PublishFailed(publisher: nat, id: string, taken: bool, count: nat)  // no confirm, but the broker may have taken it
    | PublisherCommit(publisher: nat)
    | PublisherCrash(publisher: nat)
    | Deliver(tag: nat, message: Message)
    | Requeue(tag: nat)                                       // the channel is gone, the broker requeues
    | Die(tag: nat)                                           // the consumer is gone
    | Select(tag: nat)                                        // looks for the idempotency row
    | Insert(tag: nat)                                        // inserts the idempotency row
    | Run(tag: nat)                                           // the handler returns
    | Raise(tag: nat, integrity: bool)                        // the database or the handler raises
    | Recheck(tag: nat)                                       // looks for the idempotency row again
    | Commit(tag: nat, known: bool)                           // committed; `known` if the consumer learns it
    | DeadLetter(tag: nat)
    | Ack(tag: nat)
    | Reject(tag: nat)
    | Expire(message: Message)                                // the retry queue's time to live is over

  predicate Enabled(cfg: Config, s: State, e: Event) {
    match e
    case Emit(id, _, _, _) => id !in s.outbox && id != ""
    case Foreign(_) => true
    case PublishOk(_, id) => id in s.outbox && s.outbox[id].wellFormed
    case PublishFailed(_, id, _, _) => id in s.outbox && s.outbox[id].wellFormed
    case PublisherCommit(p) => p in s.publishers
    case PublisherCrash(p) => p in s.publishers
    case Deliver(tag, m) => tag !in s.flight && m in s.worker
    case Requeue(tag) => tag in s.flight && !s.flight[tag].lost
    case Die(tag) => tag in s.flight
    case Select(tag) => InRoute(cfg, s, tag) && s.flight[tag].phase.tx.NoTx?
    case Insert(tag) =>
      && InTx(cfg, s, tag) && !s.flight[tag].phase.tx.inserted
      && s.flight[tag].phase.tx.ran == RouteOf(cfg, s, tag).deferred
      && !(exists other :: other in s.flight && Holds(cfg, s, other, KeyOf(cfg, s, tag)))
    case Run(tag) =>
      && InTx(cfg, s, tag) && !s.flight[tag].phase.tx.ran
      && s.flight[tag].phase.tx.inserted == !RouteOf(cfg, s, tag).deferred
    case Raise(tag, _) => InRoute(cfg, s, tag)
    case Recheck(tag) => InRoute(cfg, s, tag) && s.flight[tag].phase.tx.Aborted?
    case Commit(tag, _) => InTx(cfg, s, tag) && s.flight[tag].phase.tx == Open(true, true)
    case DeadLetter(tag) => tag in s.flight && s.flight[tag].phase.Failed? && GivesUp(cfg, s.flight[tag].message)
    case Reject(tag) => tag in s.flight && s.flight[tag].phase.Failed? && !GivesUp(cfg, s.flight[tag].message)
    case Ack(tag) => tag in s.flight && (s.flight[tag].phase.DeadLettered? || AllRoutesDone(cfg, s.flight[tag]))
    case Expire(m) => m in s.retry
  }

  predicate AllRoutesDone(cfg: Config, u: Unacked) {
    u.message.body.Envelope? && u.phase == Routing(|RoutesOf(cfg, u.message.body.kind)|, NoTx)
  }

  function Published(s: State, id: string): Message
    requires id in s.outbox
  {
    Message(Envelope(id, s.outbox[id].kind), FRESH)
  }

  function Session(s: State, p: nat): map<string, Write> {
    if p in s.publishers then s.publishers[p] else map[]
  }

  function Written(row: Row, write: Write): Row {
    match write
    case Publish => row.(published := true)
    case Retry(count) => row.(retries := count)
  }

  function Taken(s: State, id: string, taken: bool): multiset<Message>
    requires id in s.outbox
  {
    if taken then s.worker + multiset{Published(s, id)} else s.worker
  }

  function SetPhase(s: State, tag: nat, phase: Phase): State
    requires tag in s.flight
  {
    s.(flight := s.flight[tag := s.flight[tag].(phase := phase)])
  }

  predicate IsPublisherEvent(e: Event) {
    e.PublishOk? || e.PublishFailed? || e.PublisherCommit? || e.PublisherCrash?
  }

  predicate IsDeliveryEvent(e: Event) {
    e.Select? || e.Insert? || e.Run? || e.Raise? || e.Recheck? || e.Commit? || e.DeadLetter?
  }

  predicate IsQueueEvent(e: Event) {
    e.Foreign? || e.Deliver? || e.Requeue? || e.Die? || e.Ack? || e.Reject? || e.Expire?
  }

  /** The phase of a delivery after one of its steps. */
  function NextPhase(cfg: Config, s: State, e: Event): Phase
    requires IsDeliveryEvent(e) && Enabled(cfg, s, e)
  {
    if e.DeadLetter? then DeadLettered
    else
      var route, tx := s.flight[e.tag].phase.route, s.flight[e.tag].phase.tx;
      var processed := KeyOf(cfg, s, e.tag) in s.processed;
      var event := s.flight[e.tag].message.body.event;
      match e
      case Select(_) =>
        if event == "" || RouteOf(cfg, s, e.tag).consumer == "" then Failed
        else if processed then Routing(route + 1, NoTx)
        else Routing(route, Open(false, false))
      case Insert(_) =>
        Routing(route, if processed || event !in s.outbox then Aborted else tx.(inserted := true))
      case Run(_) => Routing(route, tx.(ran := true))
      case Raise(_, integrity) => if integrity && tx.Open? then Routing(route, Aborted) else Failed
      case Recheck(_) => if processed then Routing(route + 1, NoTx) else Failed
      case Commit(_, known) => if known then Routing(route + 1, NoTx) else Failed
  }

  /** What the step commits: the idempotency row and the handler's effects together. */
  function Committed(cfg: Config, s: State, e: Event): set<Key>
    requires IsDeliveryEvent(e) && Enabled(cfg, s, e)
  {
    if e.Commit? then {KeyOf(cfg, s, e.tag)} else {}
  }

  function TakeStep(cfg: Config, s: State, e: Event): State
    requires IsDeliveryEvent(e) && Enabled(cfg, s, e)
  {
    SetPhase(s, e.tag, NextPhase(cfg, s, e)).(
      processed := s.processed + Committed(cfg, s, e),
      applied := s.applied + multiset(Committed(cfg, s, e)),
      dead := if e.DeadLetter? then s.dead + multiset{s.flight[e.tag].message.body} else s.dead)
  }

  function Apply(cfg: Config, s: State, e: Event): State
    requires Enabled(cfg, s, e)
  {
    match e
    case Emit(id, kind, wellFormed, created) => s.(outbox := s.outbox[id := Row(kind, wellFormed, created, false, 0)])
    case Foreign(m) => s.(worker := s.worker + multiset{m})
    case PublishOk(p, id) =>
      s.(worker := Taken(s, id, true), publishers := s.publishers[p := Session(s, p)[id := Publish]])
    case PublishFailed(p, id, taken, count) =>
      s.(worker := Taken(s, id, taken), publishers := s.publishers[p := Session(s, p)[id := Retry(count)]])
    case PublisherCommit(p) =>
      s.(outbox := map id | id in s.outbox ::
                     if id in s.publishers[p] then Written(s.outbox[id], s.publishers[p][id]) else s.outbox[id],
         publishers := s.publishers - {p})
    case PublisherCrash(p) => s.(publishers := s.publishers - {p})
    case Deliver(tag, m) =>
      s.(worker := s.worker - multiset{m}, flight := s.flight[tag := Unacked(m, false, Start(cfg, m.body))])
    case Requeue(tag) =>
      s.(worker := s.worker + multiset{s.flight[tag].message}, flight := s.flight[tag := s.flight[tag].(lost := true)])
    case Die(tag) =>
      s.(worker := if s.flight[tag].lost then s.worker else s.worker + multiset{s.flight[tag].message},
         flight := s.flight - {tag})
    case Ack(tag) => s.(flight := s.flight - {tag})
    case Reject(tag) =>
      s.(retry := if s.flight[tag].lost then s.retry else s.retry + multiset{Rejected(s.flight[tag].message)},
         flight := s.flight - {tag})
    case Expire(m) => s.(retry := s.retry - multiset{m}, worker := s.worker + multiset{Expired(m)})
    case Select(_) | Insert(_) | Run(_) | Raise(_, _) | Recheck(_) | Commit(_, _) | DeadLetter(_) => TakeStep(cfg, s, e)
  }

  ghost predicate IsRun(cfg: Config, s: State, events: seq<Event>)
    decreases |events|
  {
    events != [] ==> Enabled(cfg, s, events[0]) && IsRun(cfg, Apply(cfg, s, events[0]), events[1..])
  }

  ghost function After(cfg: Config, s: State, events: seq<Event>): State
    requires IsRun(cfg, s, events)
    decreases |events|
  {
    if events == [] then s else After(cfg, Apply(cfg, s, events[0]), events[1..])
  }

  lemma {:induction false} RunConcat(cfg: Config, s: State, a: seq<Event>, b: seq<Event>)
    requires IsRun(cfg, s, a) && IsRun(cfg, After(cfg, s, a), b)
    ensures IsRun(cfg, s, a + b) && After(cfg, s, a + b) == After(cfg, After(cfg, s, a), b)
    decreases |a|
  {
    hide Enabled, Apply;
    if a == [] {
      assert a + b == b;
    } else {
      RunConcat(cfg, Apply(cfg, s, a[0]), a[1..], b);
      assert (a + b)[1..] == a[1..] + b && (a + b)[0] == a[0];
    }
  }

  ghost predicate Reaches(cfg: Config, s: State, n: State) {
    exists events :: IsRun(cfg, s, events) && After(cfg, s, events) == n
  }

  lemma ReachesSelf(cfg: Config, s: State)
    ensures Reaches(cfg, s, s)
  {
    assert IsRun(cfg, s, []) && After(cfg, s, []) == s;
  }

  lemma ReachesStep(cfg: Config, s: State, m: State, e: Event)
    requires Reaches(cfg, s, m) && Enabled(cfg, m, e)
    ensures Reaches(cfg, s, Apply(cfg, m, e))
  {
    hide Enabled, Apply;
    var events :| IsRun(cfg, s, events) && After(cfg, s, events) == m;
    assert [e][1..] == [];
    assert IsRun(cfg, m, [e]) && After(cfg, m, [e]) == Apply(cfg, m, e) by {
      assert IsRun(cfg, Apply(cfg, m, e), []) && After(cfg, Apply(cfg, m, e), []) == Apply(cfg, m, e);
    }
    RunConcat(cfg, s, events, [e]);
    assert IsRun(cfg, s, events + [e]) && After(cfg, s, events + [e]) == Apply(cfg, m, e);
  }

  /******* Nothing is lost *******/

  ghost predicate Queued(queue: multiset<Message>, body: Body) {
    exists m :: m in queue && m.body == body
  }

  ghost predicate InFlight(flight: map<nat, Unacked>, body: Body) {
    exists tag :: tag in flight && !flight[tag].lost && flight[tag].message.body == body
  }

  /** Every route registered for the kind has its idempotency row, and there is at least one. */
  ghost predicate ProcessedByAll(cfg: Config, s: State, id: string, kind: string) {
    && kind in cfg.routes && cfg.routes[kind] != []
    && forall i | 0 <= i < |cfg.routes[kind]| :: (cfg.routes[kind][i].consumer, id) in s.processed
  }

  lemma AllProcessed(cfg: Config, s: State, id: string, kind: string)
    requires RoutesOf(cfg, kind) != [] && ProcessedBefore(s.processed, RoutesOf(cfg, kind), id, |RoutesOf(cfg, kind)|)
    ensures ProcessedByAll(cfg, s, id, kind)
  {
  }

  ghost predicate ProcessedBefore(processed: set<Key>, routes: seq<Route>, id: string, n: nat) {
    forall i | 0 <= i < n && i < |routes| :: (routes[i].consumer, id) in processed
  }

  /** The event is on its way, given up in the dead-letter queue, or done. */
  ghost predicate Accounted(cfg: Config, s: State, id: string)
    requires id in s.outbox
  {
    var body := Envelope(id, s.outbox[id].kind);
    || Queued(s.worker, body) || Queued(s.retry, body) || InFlight(s.flight, body)
    || body in s.dead
    || ProcessedByAll(cfg, s, id, s.outbox[id].kind)
  }

  ghost predicate PublishedOk(cfg: Config, s: State) {
    forall id :: id in s.outbox && s.outbox[id].published ==> Accounted(cfg, s, id)
  }

  /** The broker has confirmed the event to a publisher that has not committed this yet. */
  ghost predicate Confirmed(s: State, p: nat, id: string) {
    p in s.publishers && id in s.publishers[p] && s.publishers[p][id] == Publish
  }

  ghost predicate ConfirmedOk(cfg: Config, s: State) {
    forall p, id :: Confirmed(s, p, id) ==> id in s.outbox && Accounted(cfg, s, id)
  }

  /** The routes a delivery is past are processed; what it has dead-lettered is in the dead-letter queue. */
  ghost predicate UnackedOk(cfg: Config, processed: set<Key>, dead: multiset<Body>, u: Unacked) {
    match u.phase
    case Routing(route, tx) =>
      && u.message.body.Envelope?
      && var routes := RoutesOf(cfg, u.message.body.kind);
      && routes != [] && route <= |routes| && (route == |routes| ==> tx.NoTx?)
      && ProcessedBefore(processed, routes, u.message.body.event, route)
    case Failed => true
    case DeadLettered => u.message.body in dead
  }

  ghost predicate FlightOk(cfg: Config, s: State) {
    forall tag :: tag in s.flight ==> UnackedOk(cfg, s.processed, s.dead, s.flight[tag])
  }

  /** An inserted row is unique, among the committed rows and among the open transactions. */
  ghost predicate UniqueOk(cfg: Config, s: State) {
    && (forall tag, key :: tag in s.flight && Holds(cfg, s, tag, key) ==> key !in s.processed)
    && (forall a, b, key :: a in s.flight && b in s.flight && Holds(cfg, s, a, key) && Holds(cfg, s, b, key) ==> a == b)
  }

  /** The effects of a handler are committed once for each idempotency row, and never without it. */
  ghost predicate AppliedOk(s: State) {
    s.applied == multiset(s.processed)
  }

  ghost predicate Inv(cfg: Config, s: State) {
    && PublishedOk(cfg, s) && ConfirmedOk(cfg, s) && FlightOk(cfg, s) && UniqueOk(cfg, s) && AppliedOk(s)
  }

  lemma InitInv(cfg: Config)
    ensures Inv(cfg, EMPTY)
  {
  }

  /******* Every event keeps the invariant *******/

  /** An event never loses the copy of an event that is on its way without another trace of it. */
  lemma DeliveryKeepsAccounted(cfg: Config, s: State, e: Event, id: string)
    requires Enabled(cfg, s, e) && IsDeliveryEvent(e) && id in s.outbox && Accounted(cfg, s, id)
    ensures id in Apply(cfg, s, e).outbox && Accounted(cfg, Apply(cfg, s, e), id)
  {
    var n := Apply(cfg, s, e);
    var body := Envelope(id, s.outbox[id].kind);
    DeliveryKeepsFlight(cfg, s, e);
    hide Apply, Enabled, RoutesOf;
    if InFlight(s.flight, body) {
      var tag :| tag in s.flight && !s.flight[tag].lost && s.flight[tag].message.body == body;
      assert tag in n.flight && !n.flight[tag].lost && n.flight[tag].message.body == body;
    }
  }

  /** A step of a delivery changes only its own phase, and only adds to what is processed and dead. */
  lemma DeliveryKeepsFlight(cfg: Config, s: State, e: Event)
    requires Enabled(cfg, s, e) && IsDeliveryEvent(e)
    ensures var n := Apply(cfg, s, e);
            && e.tag in s.flight && e.tag in n.flight
            && n.flight == s.flight[e.tag := s.flight[e.tag].(phase := n.flight[e.tag].phase)]
            && n.outbox == s.outbox && n.publishers == s.publishers && n.worker == s.worker && n.retry == s.retry
            && n.flight[e.tag].phase == NextPhase(cfg, s, e)
            && n.processed == s.processed + Committed(cfg, s, e) && s.dead <= n.dead
  {
    hide NextPhase, RoutesOf, GivesUp, Committed;
  }

  /** A message leaves the worker queue only for a consumer. */
  lemma WorkerQueueKeeps(cfg: Config, s: State, e: Event, m: Message)
    requires Enabled(cfg, s, e) && IsQueueEvent(e) && m in s.worker
    ensures m in Apply(cfg, s, e).worker || InFlight(Apply(cfg, s, e).flight, m.body)
  {
    hide RoutesOf, GivesUp, AllRoutesDone, Rejected, AddDeath, Start;
    if e.Deliver? && e.message == m {
      assert Apply(cfg, s, e).flight[e.tag].message.body == m.body;
    }
  }

  /** A message leaves the retry queue only for the worker queue. */
  lemma RetryQueueKeeps(cfg: Config, s: State, e: Event, m: Message)
    requires Enabled(cfg, s, e) && IsQueueEvent(e) && m in s.retry
    ensures m in Apply(cfg, s, e).retry || Queued(Apply(cfg, s, e).worker, m.body)
  {
    hide RoutesOf, GivesUp, AllRoutesDone, Rejected, AddDeath, Start;
    if e.Expire? && e.message == m {
      assert Expired(m) in Apply(cfg, s, e).worker && Expired(m).body == m.body;
    }
  }

  lemma QueueKeepsAccounted(cfg: Config, s: State, e: Event, id: string)
    requires Enabled(cfg, s, e) && IsQueueEvent(e) && FlightOk(cfg, s) && id in s.outbox && Accounted(cfg, s, id)
    ensures Apply(cfg, s, e).outbox == s.outbox && Accounted(cfg, Apply(cfg, s, e), id)
  {
    var n := Apply(cfg, s, e);
    var body := Envelope(id, s.outbox[id].kind);
    QueueEventKeepsDone(cfg, s, e);
    hide RoutesOf, Apply, Enabled, FlightOk;
    if Queued(s.worker, body) {
      var m :| m in s.worker && m.body == body;
      WorkerQueueKeeps(cfg, s, e, m);
    } else if Queued(s.retry, body) {
      var m :| m in s.retry && m.body == body;
      RetryQueueKeeps(cfg, s, e, m);
    } else if InFlight(s.flight, body) {
      var tag :| tag in s.flight && !s.flight[tag].lost && s.flight[tag].message.body == body;
      LeavingIsAccounted(cfg, s, e, tag);
    }
  }

  lemma QueueEventKeepsDone(cfg: Config, s: State, e: Event)
    requires Enabled(cfg, s, e) && IsQueueEvent(e)
    ensures var n := Apply(cfg, s, e); n.outbox == s.outbox && n.dead == s.dead && n.processed == s.processed
  {
    hide Enabled, RoutesOf, Rejected, Expired, Start;
    if e.Foreign? || e.Deliver? {
    } else if e.Die? || e.Requeue? || e.Ack? {
    } else if e.Reject? {
    }
  }

  /** A delivery leaves the consumer for a queue, or with all routes done, or dead-lettered. */
  lemma LeavingIsAccounted(cfg: Config, s: State, e: Event, tag: nat)
    requires Enabled(cfg, s, e) && IsQueueEvent(e) && FlightOk(cfg, s) && tag in s.flight && !s.flight[tag].lost
    ensures var n := Apply(cfg, s, e);
            var body := s.flight[tag].message.body;
            || InFlight(n.flight, body) || Queued(n.worker, body) || Queued(n.retry, body)
            || body in n.dead
            || (body.Envelope? && ProcessedByAll(cfg, n, body.event, body.kind))
  {
    var n := Apply(cfg, s, e);
    var m := s.flight[tag].message;
    hide RoutesOf, GivesUp, Expired, AddDeath, Start;
    if (e.Die? || e.Requeue?) && e.tag == tag {
      assert m in n.worker;
    } else if e.Reject? && e.tag == tag {
      assert Rejected(m) in n.retry && Rejected(m).body == m.body;
    } else if e.Ack? && e.tag == tag {
      hide FlightOk, Rejected;
      AckedIsDone(cfg, s, tag);
    } else {
      hide FlightOk, Rejected, AllRoutesDone;
      assert tag in n.flight && !n.flight[tag].lost && n.flight[tag].message == m;
    }
  }

  /** A message is acknowledged only after all its routes are processed, or it was dead-lettered. */
  lemma AckedIsDone(cfg: Config, s: State, tag: nat)
    requires Enabled(cfg, s, Ack(tag)) && FlightOk(cfg, s)
    ensures var body := s.flight[tag].message.body;
            body in s.dead || (body.Envelope? && ProcessedByAll(cfg, s, body.event, body.kind))
  {
    assert UnackedOk(cfg, s.processed, s.dead, s.flight[tag]);
    if AllRoutesDone(cfg, s.flight[tag]) {
      AllProcessed(cfg, s, s.flight[tag].message.body.event, s.flight[tag].message.body.kind);
    }
  }

  lemma PublisherKeepsAccounted(cfg: Config, s: State, e: Event, id: string)
    requires Enabled(cfg, s, e) && (IsPublisherEvent(e) || e.Emit?) && id in s.outbox && Accounted(cfg, s, id)
    ensures id in Apply(cfg, s, e).outbox && Accounted(cfg, Apply(cfg, s, e), id)
  {
    var n := Apply(cfg, s, e);
    var body := Envelope(id, s.outbox[id].kind);
    assert n.outbox[id].kind == s.outbox[id].kind && n.flight == s.flight && n.retry == s.retry && n.dead == s.dead;
    hide RoutesOf;
    if Queued(s.worker, body) {
      var m :| m in s.worker && m.body == body;
      assert m in n.worker;
    }
  }

  /** Whatever happens, an event that is accounted for stays accounted for. */
  lemma KeepsAccounted(cfg: Config, s: State, e: Event, id: string)
    requires Enabled(cfg, s, e) && FlightOk(cfg, s) && id in s.outbox && Accounted(cfg, s, id)
    ensures id in Apply(cfg, s, e).outbox && Accounted(cfg, Apply(cfg, s, e), id)
  {
    hide Enabled, Apply, Accounted, FlightOk;
    if IsDeliveryEvent(e) {
      DeliveryKeepsAccounted(cfg, s, e, id);
    } else if IsQueueEvent(e) {
      QueueKeepsAccounted(cfg, s, e, id);
    } else {
      PublisherKeepsAccounted(cfg, s, e, id);
    }
  }

  /** Where the confirmed and the published events of the next state come from. */
  lemma NewlyConfirmed(cfg: Config, s: State, e: Event)
    requires Enabled(cfg, s, e)
    ensures var n := Apply(cfg, s, e);
            && (forall p, id :: Confirmed(n, p, id) ==> Confirmed(s, p, id) || (e.PublishOk? && e.id == id))
            && (forall id :: id in n.outbox && n.outbox[id].published ==>
                  (id in s.outbox && s.outbox[id].published) || (e.PublisherCommit? && Confirmed(s, e.publisher, id)))
            && (e.PublishOk? ==> e.id in n.outbox && e.id in s.outbox && Accounted(cfg, n, e.id))
  {
    var n := Apply(cfg, s, e);
    if IsDeliveryEvent(e) {
      DeliveryKeepsFlight(cfg, s, e);
      hide Enabled, Apply, Accounted, NextPhase, Committed, GivesUp, RoutesOf;
    } else if IsQueueEvent(e) {
      QueueKeepsRows(cfg, s, e);
      hide Enabled, Apply, Accounted, NextPhase, Committed, GivesUp, RoutesOf;
    } else if e.PublishOk? {
      assert Published(s, e.id) in n.worker;
    }
  }

  lemma QueueKeepsRows(cfg: Config, s: State, e: Event)
    requires Enabled(cfg, s, e) && IsQueueEvent(e)
    ensures var n := Apply(cfg, s, e); n.outbox == s.outbox && n.publishers == s.publishers
  {
    hide Enabled, RoutesOf, Rejected, Expired, Start;
    if e.Foreign? {
    } else if e.Deliver? {
    } else if e.Requeue? || e.Die? {
    } else if e.Ack? || e.Reject? {
    }
  }

  lemma KeepsPublished(cfg: Config, s: State, e: Event)
    requires Enabled(cfg, s, e) && PublishedOk(cfg, s) && ConfirmedOk(cfg, s) && FlightOk(cfg, s)
    ensures PublishedOk(cfg, Apply(cfg, s, e))
  {
    var n := Apply(cfg, s, e);
    NewlyConfirmed(cfg, s, e);
    hide Apply, Enabled, Accounted, FlightOk;
    forall id | id in n.outbox && n.outbox[id].published
      ensures Accounted(cfg, n, id)
    {
      KeepsAccounted(cfg, s, e, id);
    }
  }

  lemma KeepsConfirmed(cfg: Config, s: State, e: Event)
    requires Enabled(cfg, s, e) && ConfirmedOk(cfg, s) && FlightOk(cfg, s)
    ensures ConfirmedOk(cfg, Apply(cfg, s, e))
  {
    var n := Apply(cfg, s, e);
    NewlyConfirmed(cfg, s, e);
    hide Apply, Enabled, Accounted, FlightOk;
    forall p, id | Confirmed(n, p, id)
      ensures id in n.outbox && Accounted(cfg, n, id)
    {
      if Confirmed(s, p, id) {
        KeepsAccounted(cfg, s, e, id);
      }
    }
  }

  lemma KeepsFlight(cfg: Config, s: State, e: Event)
    requires Enabled(cfg, s, e) && FlightOk(cfg, s)
    ensures FlightOk(cfg, Apply(cfg, s, e))
  {
    var n := Apply(cfg, s, e);
    if IsDeliveryEvent(e) {
      DeliveryKeepsFlight(cfg, s, e);
      DeliveryKeepsUnacked(cfg, s, e);
      hide Apply, Enabled;
    }
  }

  lemma DeliveryKeepsUnacked(cfg: Config, s: State, e: Event)
    requires Enabled(cfg, s, e) && IsDeliveryEvent(e) && FlightOk(cfg, s)
    ensures var n := Apply(cfg, s, e); e.tag in n.flight && UnackedOk(cfg, n.processed, n.dead, n.flight[e.tag])
  {
    hide RoutesOf, GivesUp;
    var u := s.flight[e.tag];
    assert UnackedOk(cfg, s.processed, s.dead, u);
    hide FlightOk;
    if u.phase.Routing? && u.message.body.Envelope? {
      hide ProcessedBefore;
      OneMoreProcessed(s.processed, Committed(cfg, s, e), RoutesOf(cfg, u.message.body.kind), u.message.body.event, u.phase.route);
    }
  }

  lemma OneMoreProcessed(processed: set<Key>, more: set<Key>, routes: seq<Route>, id: string, n: nat)
    requires ProcessedBefore(processed, routes, id, n)
    ensures ProcessedBefore(processed + more, routes, id, n)
    ensures n < |routes| && (routes[n].consumer, id) in processed + more ==> ProcessedBefore(processed + more, routes, id, n + 1)
  {
  }

  lemma KeepsUnique(cfg: Config, s: State, e: Event)
    requires Enabled(cfg, s, e) && UniqueOk(cfg, s)
    ensures UniqueOk(cfg, Apply(cfg, s, e))
  {
    if IsDeliveryEvent(e) {
      DeliveryKeepsUnique(cfg, s, e);
    } else {
      OtherEventsHoldNothing(cfg, s, e);
      hide Apply, Enabled, Holds;
    }
  }

  lemma DeliveryKeepsUnique(cfg: Config, s: State, e: Event)
    requires Enabled(cfg, s, e) && UniqueOk(cfg, s) && IsDeliveryEvent(e)
    ensures UniqueOk(cfg, Apply(cfg, s, e))
  {
    var n := Apply(cfg, s, e);
    DeliveryKeepsFlight(cfg, s, e);
    OtherHoldsSame(cfg, s, n, e.tag);
    hide Apply, Enabled, Holds;
    forall tag, key | tag in n.flight && Holds(cfg, n, tag, key)
      ensures key !in n.processed
      ensures tag != e.tag ==> !Holds(cfg, n, e.tag, key)
    {
      if key in n.processed && key !in s.processed {
        CommitsHeld(cfg, s, e, key);
      }
      if Holds(cfg, n, e.tag, key) {
        HoldsAfter(cfg, s, e, key);
      }
    }
  }

  lemma OtherEventsHoldNothing(cfg: Config, s: State, e: Event)
    requires Enabled(cfg, s, e) && !IsDeliveryEvent(e)
    ensures var n := Apply(cfg, s, e);
            n.processed == s.processed && forall tag, key :: Holds(cfg, n, tag, key) ==> tag in s.flight && Holds(cfg, s, tag, key)
  {
    var n := Apply(cfg, s, e);
    OtherEventsOpenNothing(cfg, s, e);
    hide RoutesOf, Apply, Enabled;
    forall tag, key | Holds(cfg, n, tag, key)
      ensures tag in s.flight && Holds(cfg, s, tag, key)
    {
      assert n.flight[tag].message == s.flight[tag].message && n.flight[tag].phase == s.flight[tag].phase;
    }
  }

  lemma OtherEventsOpenNothing(cfg: Config, s: State, e: Event)
    requires Enabled(cfg, s, e) && !IsDeliveryEvent(e)
    ensures var n := Apply(cfg, s, e);
            && n.processed == s.processed
            && forall tag :: tag in n.flight ==>
                 (tag in s.flight && n.flight[tag].(lost := s.flight[tag].lost) == s.flight[tag])
                 || n.flight[tag].phase.Failed? || n.flight[tag].phase == Routing(0, NoTx)
  {
    hide RoutesOf, GivesUp, AllRoutesDone, Rejected, Expired, Published, Session, Taken, Written;
  }

  lemma OtherHoldsSame(cfg: Config, s: State, n: State, tag: nat)
    requires tag in s.flight && tag in n.flight && n.flight == s.flight[tag := n.flight[tag]]
    ensures forall other, key :: other != tag ==> (Holds(cfg, s, other, key) <==> Holds(cfg, n, other, key))
  {
  }

  /** A delivery comes to hold an index entry only if nobody holds it and its row is not committed. */
  lemma HoldsAfter(cfg: Config, s: State, e: Event, key: Key)
    requires Enabled(cfg, s, e) && IsDeliveryEvent(e) && Holds(cfg, Apply(cfg, s, e), e.tag, key)
    ensures Apply(cfg, s, e).processed == s.processed
    ensures Holds(cfg, s, e.tag, key)
            || (key !in s.processed && forall other :: other in s.flight ==> !Holds(cfg, s, other, key))
  {
    DeliveryKeepsFlight(cfg, s, e);
    hide RoutesOf, GivesUp, Apply;
    assert e.Insert? || e.Run?;
  }

  /** A row is committed only by the transaction that holds its index entry. */
  lemma CommitsHeld(cfg: Config, s: State, e: Event, key: Key)
    requires Enabled(cfg, s, e) && IsDeliveryEvent(e) && key in Apply(cfg, s, e).processed && key !in s.processed
    ensures Holds(cfg, s, e.tag, key)
  {
    DeliveryKeepsFlight(cfg, s, e);
    hide RoutesOf, GivesUp, NextPhase, Apply;
  }

  lemma KeepsApplied(cfg: Config, s: State, e: Event)
    requires Enabled(cfg, s, e) && UniqueOk(cfg, s) && AppliedOk(s)
    ensures AppliedOk(Apply(cfg, s, e))
  {
    if e.Commit? {
      var key := KeyOf(cfg, s, e.tag);
      assert Holds(cfg, s, e.tag, key);
      assert multiset(s.processed + {key}) == multiset(s.processed) + multiset{key};
    }
  }

  lemma KeepsInv(cfg: Config, s: State, e: Event)
    requires Enabled(cfg, s, e) && Inv(cfg, s)
    ensures Inv(cfg, Apply(cfg, s, e))
  {
    hide Enabled, Apply, PublishedOk, ConfirmedOk, FlightOk, UniqueOk, AppliedOk;
    KeepsPublished(cfg, s, e);
    KeepsConfirmed(cfg, s, e);
    KeepsFlight(cfg, s, e);
    KeepsUnique(cfg, s, e);
    KeepsApplied(cfg, s, e);
  }

  /** Every run from the empty system keeps the invariant. */
  lemma {:induction false} RunKeepsInv(cfg: Config, s: State, events: seq<Event>)
    requires Inv(cfg, s) && IsRun(cfg, s, events)
    ensures Inv(cfg, After(cfg, s, events))
    decreases |events|
  {
    hide Enabled, Apply, Inv;
    if events != [] {
      KeepsInv(cfg, s, events[0]);
      RunKeepsInv(cfg, Apply(cfg, s, events[0]), events[1..]);
    }
  }

  /******* Main results *******/

  /** In every reachable state, a committed event is unpublished or accounted for: the broker loses nothing. */
  lemma NothingIsLost(cfg: Config, events: seq<Event>, id: string)
    requires IsRun(cfg, EMPTY, events) && id in After(cfg, EMPTY, events).outbox
    ensures var s := After(cfg, EMPTY, events); !s.outbox[id].published || Accounted(cfg, s, id)
  {
    InitInv(cfg);
    RunKeepsInv(cfg, EMPTY, events);
    hide After, IsRun, Accounted, ConfirmedOk, FlightOk, UniqueOk, AppliedOk;
  }

  /**
   For every interleaving of duplicate and concurrent deliveries, failures and crashes, in
   immediate and deferred mode: the effects of a consumer's handler for an event are
   committed at most once, and exactly if its idempotency row exists.
   */
  lemma EffectsOnce(cfg: Config, events: seq<Event>, key: Key)
    requires IsRun(cfg, EMPTY, events)
    ensures var s := After(cfg, EMPTY, events); s.applied[key] == if key in s.processed then 1 else 0
  {
    InitInv(cfg);
    RunKeepsInv(cfg, EMPTY, events);
    hide After, IsRun, PublishedOk, ConfirmedOk, FlightOk, UniqueOk;
  }

  /** A message leaves the consumer acknowledged only after all its routes are processed, or dead-lettered. */
  lemma AckIsSafe(cfg: Config, events: seq<Event>, tag: nat)
    requires IsRun(cfg, EMPTY, events) && Enabled(cfg, After(cfg, EMPTY, events), Ack(tag))
    ensures var s := After(cfg, EMPTY, events);
            var body := s.flight[tag].message.body;
            body in s.dead || (body.Envelope? && ProcessedByAll(cfg, s, body.event, body.kind))
  {
    InitInv(cfg);
    RunKeepsInv(cfg, EMPTY, events);
    hide After, IsRun, PublishedOk, ConfirmedOk, FlightOk, UniqueOk, AppliedOk, Enabled, ProcessedByAll;
    AckedIsDone(cfg, After(cfg, EMPTY, events), tag);
  }
}
