/**
 How often a message that keeps failing is delivered: one message from the worker queue to the
 dead letters, and what every message of every run has behind it.
 */
module DeliveryLadder {
  import opened Delivery

  /** A message that has been rejected and has waited in the retry queue. */
  function Trip(m: Message): Message {
    Expired(Rejected(m))
  }

  /** Each trip adds one death for the rejection and one for the expiry. */
  lemma TripCountsTwice(m: Message)
    ensures DeliveryAttempts(Trip(m).headers) == SumCounts(m.headers.deaths) + 2
    ensures m.headers.deaths != [] ==> DeliveryAttempts(Trip(m).headers) == DeliveryAttempts(m.headers) + 2
  {
    hide AddDeath;
  }

  /** Which failure is the last: with entries in `x-death` their counts decide, and without any the message's own header does. */
  lemma LastFailureExactly(cfg: Config, m: Message)
    ensures m.headers.deaths == [] ==>
              (GivesUp(cfg, m) <==> m.body.Undecodable? || m.body.kind == "" || m.headers.attempts + 1 >= cfg.maxAttempts)
    ensures m.headers.deaths != [] ==>
              (GivesUp(cfg, m) <==> m.body.Undecodable? || m.body.kind == "" || SumCounts(m.headers.deaths) + 1 >= cfg.maxAttempts)
    ensures SumCounts([]) == 0
    ensures forall d, rest :: SumCounts([d] + rest) == d.count + SumCounts(rest)
  {
    forall d: Death, rest
      ensures SumCounts([d] + rest) == d.count + SumCounts(rest)
    {
      assert ([d] + rest)[1..] == rest;
    }
  }

  /** A failed delivery is dead-lettered or makes a trip, and nothing else can be done with it. */
  lemma FailedDeliveryMoves(cfg: Config, s: State, tag: nat)
    requires tag in s.flight && s.flight[tag].phase.Failed? && !s.flight[tag].lost
    ensures var m := s.flight[tag].message;
            && (Enabled(cfg, s, DeadLetter(tag)) <==> GivesUp(cfg, m))
            && (Enabled(cfg, s, Reject(tag)) <==> !GivesUp(cfg, m))
            && !Enabled(cfg, s, Ack(tag))
            && (!GivesUp(cfg, m) ==>
                  var n := Apply(cfg, s, Reject(tag));
                  Enabled(cfg, n, Expire(Rejected(m))) && Trip(m) in Apply(cfg, n, Expire(Rejected(m))).worker)
  {
    hide AddDeath, GivesUp;
  }

  /** How often a message is delivered until it is dead-lettered, if every delivery fails. */
  function Deliveries(cfg: Config, m: Message): (n: nat)
    decreases if m.headers.deaths == [] then 1 else 0, cfg.maxAttempts - SumCounts(m.headers.deaths)
  {
    if GivesUp(cfg, m) then 1 else 1 + Deliveries(cfg, Trip(m))
  }

  /**
   A persistently failing message that is freshly published is dead-lettered at delivery
   `maxAttempts / 2 + 1` exactly, so at the second one for the default limit of three.
   */
  lemma LadderLength(cfg: Config, m: Message)
    requires !Malformed(m.body) && m.headers == FRESH
    ensures Deliveries(cfg, m) == cfg.maxAttempts / 2 + 1
  {
    if !GivesUp(cfg, m) {
      TripCountsTwice(m);
      LadderFrom(cfg, Trip(m));
    }
  }

  lemma {:induction false} LadderFrom(cfg: Config, m: Message)
    requires !Malformed(m.body) && m.headers.deaths != []
    ensures var left := cfg.maxAttempts - SumCounts(m.headers.deaths);
            Deliveries(cfg, m) == if left <= 1 then 1 else left / 2 + 1
    decreases cfg.maxAttempts - SumCounts(m.headers.deaths)
  {
    if !GivesUp(cfg, m) {
      hide AddDeath;
      TripCountsTwice(m);
      LadderFrom(cfg, Trip(m));
    }
  }

  /** Whatever headers a message comes with, it is dead-lettered within the limit; a malformed one at once. */
  lemma LadderBound(cfg: Config, m: Message)
    requires cfg.maxAttempts >= 1
    ensures 1 <= Deliveries(cfg, m) <= cfg.maxAttempts
    ensures Malformed(m.body) ==> Deliveries(cfg, m) == 1
  {
    if !GivesUp(cfg, m) {
      hide AddDeath;
      TripCountsTwice(m);
      LadderFrom(cfg, Trip(m));
    }
  }

  /******* The ladder as a run *******/

  function CountDeliveries(events: seq<Event>): nat {
    if events == [] then 0 else (if events[0].Deliver? then 1 else 0) + CountDeliveries(events[1..])
  }

  lemma {:induction false} CountConcat(a: seq<Event>, b: seq<Event>)
    ensures CountDeliveries(a + b) == CountDeliveries(a) + CountDeliveries(b)
  {
    if a == [] {
      assert a + b == b;
    } else {
      assert (a + b)[1..] == a[1..] + b && (a + b)[0] == a[0];
      CountConcat(a[1..], b);
    }
  }

  lemma CountFew(a: Event, b: Event)
    ensures CountDeliveries([a]) == if a.Deliver? then 1 else 0
    ensures CountDeliveries([a, b]) == CountDeliveries([a]) + CountDeliveries([b])
  {
    assert [a][1..] == [] && [a, b][1..] == [b];
  }

  /** The message is given up: everything else is as it was. */
  function GivenUp(s: State, m: Message): State {
    s.(worker := s.worker - multiset{m}, dead := s.dead + multiset{m.body})
  }

  /** The message has made one trip. */
  function Tripped(s: State, m: Message): State {
    s.(worker := s.worker - multiset{m} + multiset{Trip(m)})
  }

  /** One delivery that fails: its handler raises, unless handling has already failed at the start. */
  function FailingDelivery(cfg: Config, tag: nat, m: Message): seq<Event> {
    [Deliver(tag, m)] + (if Start(cfg, m.body).Failed? then [] else [Raise(tag, false)])
  }

  function FailedTag(s: State, tag: nat, m: Message): State {
    s.(worker := s.worker - multiset{m}, flight := s.flight[tag := Unacked(m, false, Failed)])
  }

  lemma RunOne(cfg: Config, s: State, e: Event)
    requires Enabled(cfg, s, e)
    ensures IsRun(cfg, s, [e]) && After(cfg, s, [e]) == Apply(cfg, s, e)
  {
    hide Enabled, Apply;
    assert [e][1..] == [];
    assert IsRun(cfg, Apply(cfg, s, e), []) && After(cfg, Apply(cfg, s, e), []) == Apply(cfg, s, e);
  }

  lemma FailingDeliveryRuns(cfg: Config, s: State, tag: nat, m: Message)
    requires m in s.worker && tag !in s.flight
    ensures IsRun(cfg, s, FailingDelivery(cfg, tag, m))
    ensures After(cfg, s, FailingDelivery(cfg, tag, m)) == FailedTag(s, tag, m)
    ensures CountDeliveries(FailingDelivery(cfg, tag, m)) == 1
  {
    CountFew(Deliver(tag, m), Raise(tag, false));
    CountFew(Raise(tag, false), Raise(tag, false));
    DeliverIs(cfg, s, tag, m);
    hide Enabled, Apply, IsRun, After, CountDeliveries, Start;
    var n := Apply(cfg, s, Deliver(tag, m));
    RunOne(cfg, s, Deliver(tag, m));
    if Start(cfg, m.body).Failed? {
      assert FailingDelivery(cfg, tag, m) == [Deliver(tag, m)];
    } else {
      assert FailingDelivery(cfg, tag, m) == [Deliver(tag, m), Raise(tag, false)] == [Deliver(tag, m)] + [Raise(tag, false)];
      RaiseFails(cfg, n, tag, m);
      RunOne(cfg, n, Raise(tag, false));
      RunConcat(cfg, s, [Deliver(tag, m)], [Raise(tag, false)]);
    }
  }

  lemma DeliverIs(cfg: Config, s: State, tag: nat, m: Message)
    requires m in s.worker && tag !in s.flight
    ensures Enabled(cfg, s, Deliver(tag, m))
    ensures Apply(cfg, s, Deliver(tag, m))
         == s.(worker := s.worker - multiset{m}, flight := s.flight[tag := Unacked(m, false, Start(cfg, m.body))])
    ensures Start(cfg, m.body).Failed? ==> Start(cfg, m.body) == Failed
  {
    hide RoutesOf;
  }

  lemma RaiseFails(cfg: Config, s: State, tag: nat, m: Message)
    requires tag in s.flight && s.flight[tag] == Unacked(m, false, Start(cfg, m.body)) && !Start(cfg, m.body).Failed?
    ensures Enabled(cfg, s, Raise(tag, false))
    ensures Apply(cfg, s, Raise(tag, false)) == s.(flight := s.flight[tag := Unacked(m, false, Failed)])
  {
  }

  /** How a failed delivery ends: dead-lettered and acknowledged, or rejected and returned from the retry queue. */
  function Ending(cfg: Config, tag: nat, m: Message): seq<Event> {
    if GivesUp(cfg, m) then [DeadLetter(tag), Ack(tag)] else [Reject(tag), Expire(Rejected(m))]
  }

  predicate FailedHere(s: State, tag: nat, m: Message) {
    tag in s.flight && s.flight[tag] == Unacked(m, false, Failed)
  }

  lemma DeadLetterIs(cfg: Config, s: State, tag: nat, m: Message)
    requires FailedHere(s, tag, m) && GivesUp(cfg, m)
    ensures Enabled(cfg, s, DeadLetter(tag))
    ensures Apply(cfg, s, DeadLetter(tag))
         == s.(flight := s.flight[tag := Unacked(m, false, DeadLettered)], dead := s.dead + multiset{m.body})
  {
    hide GivesUp;
    assert multiset(Committed(cfg, s, DeadLetter(tag))) == multiset{};
  }

  lemma AckIs(cfg: Config, s: State, tag: nat)
    requires tag in s.flight && s.flight[tag].phase.DeadLettered?
    ensures Enabled(cfg, s, Ack(tag)) && Apply(cfg, s, Ack(tag)) == s.(flight := s.flight - {tag})
  {
  }

  lemma RejectIs(cfg: Config, s: State, tag: nat, m: Message)
    requires FailedHere(s, tag, m) && !GivesUp(cfg, m)
    ensures Enabled(cfg, s, Reject(tag))
    ensures Apply(cfg, s, Reject(tag)) == s.(retry := s.retry + multiset{Rejected(m)}, flight := s.flight - {tag})
  {
    hide GivesUp, Rejected;
  }

  lemma ExpireIs(cfg: Config, s: State, m: Message)
    requires m in s.retry
    ensures Enabled(cfg, s, Expire(m))
    ensures Apply(cfg, s, Expire(m)) == s.(retry := s.retry - multiset{m}, worker := s.worker + multiset{Expired(m)})
  {
    hide Expired;
  }

  lemma DeadEnding(cfg: Config, s: State, tag: nat, m: Message)
    requires m in s.worker && tag !in s.flight && GivesUp(cfg, m)
    ensures var f := FailedTag(s, tag, m);
            && Enabled(cfg, f, DeadLetter(tag))
            && var n := Apply(cfg, f, DeadLetter(tag));
            && Enabled(cfg, n, Ack(tag)) && Apply(cfg, n, Ack(tag)) == GivenUp(s, m)
  {
    hide Enabled, Apply, GivesUp;
    var f := FailedTag(s, tag, m);
    DeadLetterIs(cfg, f, tag, m);
    var n := Apply(cfg, f, DeadLetter(tag));
    AckIs(cfg, n, tag);
    assert n.flight - {tag} == s.flight;
  }

  lemma TripEnding(cfg: Config, s: State, tag: nat, m: Message)
    requires m in s.worker && tag !in s.flight && !GivesUp(cfg, m)
    ensures var f := FailedTag(s, tag, m);
            && Enabled(cfg, f, Reject(tag))
            && var n := Apply(cfg, f, Reject(tag));
            && Enabled(cfg, n, Expire(Rejected(m))) && Apply(cfg, n, Expire(Rejected(m))) == Tripped(s, m)
  {
    hide Enabled, Apply, GivesUp, Rejected, Expired;
    var f := FailedTag(s, tag, m);
    RejectIs(cfg, f, tag, m);
    var n := Apply(cfg, f, Reject(tag));
    ExpireIs(cfg, n, Rejected(m));
    assert f.flight - {tag} == s.flight;
    assert n.retry - multiset{Rejected(m)} == s.retry;
  }

  lemma EndingRuns(cfg: Config, s: State, tag: nat, m: Message)
    requires m in s.worker && tag !in s.flight
    ensures IsRun(cfg, FailedTag(s, tag, m), Ending(cfg, tag, m))
    ensures After(cfg, FailedTag(s, tag, m), Ending(cfg, tag, m)) == if GivesUp(cfg, m) then GivenUp(s, m) else Tripped(s, m)
    ensures CountDeliveries(Ending(cfg, tag, m)) == 0
  {
    var f, ending := FailedTag(s, tag, m), Ending(cfg, tag, m);
    CountFew(ending[0], ending[1]);
    CountFew(ending[1], ending[1]);
    assert ending == [ending[0], ending[1]] == [ending[0]] + [ending[1]];
    if GivesUp(cfg, m) {
      DeadEnding(cfg, s, tag, m);
    } else {
      TripEnding(cfg, s, tag, m);
    }
    hide Enabled, Apply, IsRun, After, GivesUp, FailedTag, GivenUp, Tripped;
    RunOne(cfg, f, ending[0]);
    RunOne(cfg, Apply(cfg, f, ending[0]), ending[1]);
    RunConcat(cfg, f, [ending[0]], [ending[1]]);
  }

  /**
   The ladder is a run of the system: from any state with the message on the worker queue, the
   run in which each of its deliveries fails puts its body among the dead letters, changes
   nothing else, and has that many deliveries.
   */
  lemma {:induction false} LadderRuns(cfg: Config, s: State, tag: nat, m: Message) returns (events: seq<Event>)
    requires m in s.worker && tag !in s.flight
    ensures IsRun(cfg, s, events) && After(cfg, s, events) == GivenUp(s, m)
    ensures CountDeliveries(events) == Deliveries(cfg, m)
    decreases if m.headers.deaths == [] then 1 else 0, cfg.maxAttempts - SumCounts(m.headers.deaths)
  {
    var failing, ending := FailingDelivery(cfg, tag, m), Ending(cfg, tag, m);
    FailingDeliveryRuns(cfg, s, tag, m);
    EndingRuns(cfg, s, tag, m);
    hide Enabled, Apply, IsRun, After, AddDeath;
    RunConcat(cfg, s, failing, ending);
    CountConcat(failing, ending);
    if GivesUp(cfg, m) {
      events := failing + ending;
    } else {
      var n := Tripped(s, m);
      TripCountsTwice(m);
      var more := LadderRuns(cfg, n, tag, Trip(m));
      RunConcat(cfg, s, failing + ending, more);
      CountConcat(failing + ending, more);
      assert n.worker - multiset{Trip(m)} == s.worker - multiset{m};
      events := failing + ending + more;
    }
  }

  /** So a freshly published message that always fails is dead-lettered at delivery `maxAttempts / 2 + 1`. */
  lemma FreshLadderRuns(cfg: Config, s: State, tag: nat, m: Message) returns (events: seq<Event>)
    requires m in s.worker && tag !in s.flight && m.headers == FRESH
    ensures IsRun(cfg, s, events) && After(cfg, s, events) == GivenUp(s, m)
    ensures CountDeliveries(events) == if m.body.Undecodable? || m.body.kind == "" then 1 else cfg.maxAttempts / 2 + 1
  {
    events := LadderRuns(cfg, s, tag, m);
    if !Malformed(m.body) {
      LadderLength(cfg, m);
    }
  }

  /******* What every message has behind it *******/

  /** The headers after `j` trips. */
  function TripHeaders(j: nat): Headers {
    if j == 0 then FRESH
    else Headers([Death("worker.events", "rejected", j), Death("worker.events.retry", "expired", j)], 0)
  }

  /** The message has made `j` trips, no more than the limit allows, and none if it is malformed. */
  ghost predicate Made(cfg: Config, m: Message, j: nat) {
    m.headers == TripHeaders(j) && 2 * j <= cfg.maxAttempts && (Malformed(m.body) ==> j == 0)
  }

  ghost predicate OnLadder(cfg: Config, m: Message) {
    exists j: nat :: Made(cfg, m, j)
  }

  /** The message is on its next trip. */
  ghost predicate OnTrip(cfg: Config, m: Message) {
    exists was: Message :: m == Rejected(was) && OnLadder(cfg, was) && !GivesUp(cfg, was)
  }

  ghost predicate LadderOk(cfg: Config, s: State) {
    && (forall m :: m in s.worker ==> OnLadder(cfg, m))
    && (forall tag :: tag in s.flight ==> OnLadder(cfg, s.flight[tag].message))
    && (forall m :: m in s.retry ==> OnTrip(cfg, m))
  }

  lemma TripHeadersSum(j: nat)
    ensures DeliveryAttempts(TripHeaders(j)) == 2 * j
  {
    if j > 0 {
      var deaths := TripHeaders(j).deaths;
      assert deaths[1..][1..] == [] && SumCounts(deaths[1..]) == j;
    }
  }

  /** A message is given up exactly after the last trip the limit allows, a malformed one at once. */
  lemma GivesUpExactly(cfg: Config, m: Message, j: nat)
    requires Made(cfg, m, j)
    ensures GivesUp(cfg, m) <==> Malformed(m.body) || j == cfg.maxAttempts / 2
  {
    TripHeadersSum(j);
    hide DeliveryAttempts, TripHeaders;
  }

  lemma OneMoreTrip(m: Message, j: nat)
    requires m.headers == TripHeaders(j)
    ensures Trip(m) == m.(headers := TripHeaders(j + 1))
  {
    var a, b := Death("worker.events", "rejected", j), Death("worker.events.retry", "expired", j);
    if j == 0 {
      assert Rejected(m).headers.deaths == [a.(count := 1)];
      assert AddDeath([], b.queue, b.reason) == [b.(count := 1)];
    } else {
      assert [a, b][1..] == [b];
      assert Rejected(m).headers.deaths == [a.(count := j + 1), b];
      assert AddDeath([b], b.queue, b.reason) == [b.(count := j + 1)];
    }
  }

  lemma KeepsTrying(cfg: Config, m: Message)
    requires !GivesUp(cfg, m)
    ensures !Malformed(m.body)
  {
  }

  lemma TripKeepsLadder(cfg: Config, m: Message)
    requires OnTrip(cfg, m)
    ensures OnLadder(cfg, Expired(m))
  {
    hide GivesUp, TripHeaders, Rejected, Expired, Malformed;
    var was: Message :| m == Rejected(was) && OnLadder(cfg, was) && !GivesUp(cfg, was);
    var j: nat :| Made(cfg, was, j);
    GivesUpExactly(cfg, was, j);
    OneMoreTrip(was, j);
    KeepsTrying(cfg, was);
    assert Made(cfg, Expired(m), j + 1);
  }

  lemma PublisherKeepsLadder(cfg: Config, s: State, e: Event)
    requires LadderOk(cfg, s) && Enabled(cfg, s, e) && (IsPublisherEvent(e) || e.Emit?)
    ensures LadderOk(cfg, Apply(cfg, s, e))
  {
    if e.PublishOk? || e.PublishFailed? {
      assert Made(cfg, Published(s, e.id), 0);
      assert OnLadder(cfg, Published(s, e.id));
    }
    hide OnLadder, OnTrip;
  }

  lemma QueueEffects(cfg: Config, s: State, e: Event)
    requires Enabled(cfg, s, e) && IsQueueEvent(e) && !e.Foreign?
    ensures var n := Apply(cfg, s, e);
            && n.worker == (match e
                            case Expire(m) => s.worker + multiset{Expired(m)}
                            case Requeue(tag) => s.worker + multiset{s.flight[tag].message}
                            case Die(tag) => if s.flight[tag].lost then s.worker else s.worker + multiset{s.flight[tag].message}
                            case Deliver(_, m) => s.worker - multiset{m}
                            case _ => s.worker)
            && n.retry == (match e
                           case Expire(m) => s.retry - multiset{m}
                           case Reject(tag) => if s.flight[tag].lost then s.retry else s.retry + multiset{Rejected(s.flight[tag].message)}
                           case _ => s.retry)
            && n.flight == (match e
                            case Expire(_) => s.flight
                            case Deliver(tag, m) => s.flight[tag := Unacked(m, false, Start(cfg, m.body))]
                            case Requeue(tag) => s.flight[tag := s.flight[tag].(lost := true)]
                            case _ => s.flight - {e.tag})
  {
    hide GivesUp, RoutesOf, Rejected, Expired, Start, AllRoutesDone;
    if e.Expire? {
    } else if e.Deliver? {
    } else if e.Requeue? || e.Die? {
    } else if e.Ack? || e.Reject? {
    }
  }

  lemma QueueKeepsWorker(cfg: Config, s: State, e: Event)
    requires LadderOk(cfg, s) && Enabled(cfg, s, e) && IsQueueEvent(e) && !e.Foreign?
    ensures forall m :: m in Apply(cfg, s, e).worker ==> OnLadder(cfg, m)
  {
    QueueEffects(cfg, s, e);
    if e.Expire? {
      TripKeepsLadder(cfg, e.message);
    }
    hide Apply, OnLadder, OnTrip, GivesUp, RoutesOf, Rejected, Expired, Start, AllRoutesDone;
  }

  lemma QueueKeepsInFlight(cfg: Config, s: State, e: Event)
    requires LadderOk(cfg, s) && Enabled(cfg, s, e) && IsQueueEvent(e) && !e.Foreign?
    ensures forall tag :: tag in Apply(cfg, s, e).flight ==> OnLadder(cfg, Apply(cfg, s, e).flight[tag].message)
  {
    QueueEffects(cfg, s, e);
    hide Apply, OnLadder, OnTrip, GivesUp, RoutesOf, Rejected, Expired, Start, AllRoutesDone;
  }

  lemma QueueKeepsTrips(cfg: Config, s: State, e: Event)
    requires LadderOk(cfg, s) && Enabled(cfg, s, e) && IsQueueEvent(e) && !e.Foreign?
    ensures forall m :: m in Apply(cfg, s, e).retry ==> OnTrip(cfg, m)
  {
    QueueEffects(cfg, s, e);
    hide Apply, OnLadder, GivesUp, RoutesOf, Rejected, Expired, Start, AllRoutesDone;
    if e.Reject? {
      assert OnTrip(cfg, Rejected(s.flight[e.tag].message));
    }
    hide OnTrip;
  }

  lemma QueueKeepsLadder(cfg: Config, s: State, e: Event)
    requires LadderOk(cfg, s) && Enabled(cfg, s, e) && IsQueueEvent(e) && !e.Foreign?
    ensures LadderOk(cfg, Apply(cfg, s, e))
  {
    QueueKeepsWorker(cfg, s, e);
    QueueKeepsInFlight(cfg, s, e);
    QueueKeepsTrips(cfg, s, e);
    hide Apply, Enabled, OnLadder, OnTrip;
  }

  /** No event but a foreign message lets a message off the ladder. */
  lemma KeepsLadder(cfg: Config, s: State, e: Event)
    requires LadderOk(cfg, s) && Enabled(cfg, s, e) && !e.Foreign?
    ensures LadderOk(cfg, Apply(cfg, s, e))
  {
    hide OnLadder, OnTrip, Enabled, Apply;
    if IsDeliveryEvent(e) {
      DeliveryKeepsFlight(cfg, s, e);
    } else if IsQueueEvent(e) {
      QueueKeepsLadder(cfg, s, e);
    } else {
      PublisherKeepsLadder(cfg, s, e);
    }
  }

  ghost predicate NoForeign(events: seq<Event>) {
    forall e | e in events :: !e.Foreign?
  }

  lemma {:induction false} RunKeepsLadder(cfg: Config, s: State, events: seq<Event>)
    requires LadderOk(cfg, s) && IsRun(cfg, s, events) && NoForeign(events)
    ensures LadderOk(cfg, After(cfg, s, events))
    decreases |events|
  {
    hide Enabled, Apply, LadderOk;
    if events != [] {
      assert events[0] in events && forall e | e in events[1..] :: e in events;
      KeepsLadder(cfg, s, events[0]);
      RunKeepsLadder(cfg, Apply(cfg, s, events[0]), events[1..]);
    }
  }

  lemma FailedOnLadder(cfg: Config, s: State, tag: nat)
    requires LadderOk(cfg, s) && tag in s.flight
    ensures var m, limit := s.flight[tag].message, cfg.maxAttempts / 2;
            exists j: nat :: m.headers == TripHeaders(j) && j <= limit && (m.body.Undecodable? || m.body.kind == "" ==> j == 0)
              && (s.flight[tag].phase.Failed? ==>
                    && (Enabled(cfg, s, DeadLetter(tag)) <==> m.body.Undecodable? || m.body.kind == "" || j == limit)
                    && (Enabled(cfg, s, Reject(tag)) <==> !(m.body.Undecodable? || m.body.kind == "") && j < limit))
  {
    hide GivesUp, TripHeaders;
    var j: nat :| Made(cfg, s.flight[tag].message, j);
    GivesUpExactly(cfg, s.flight[tag].message, j);
  }

  /**
   Main result on retries: in every state that is reached with the publisher's messages only, a
   message being handled has made at most `maxAttempts / 2` trips; when its handling has failed,
   it is dead-lettered exactly after that many, or at once if it is malformed, and otherwise it
   is rejected into its next trip. Crashes, requeued messages and duplicates are among the runs.
   */
  lemma RetriesInRuns(cfg: Config, events: seq<Event>, tag: nat)
    requires IsRun(cfg, EMPTY, events) && NoForeign(events) && tag in After(cfg, EMPTY, events).flight
    ensures var s := After(cfg, EMPTY, events); var m, limit := s.flight[tag].message, cfg.maxAttempts / 2;
            exists j: nat :: m.headers == TripHeaders(j) && j <= limit && (m.body.Undecodable? || m.body.kind == "" ==> j == 0)
              && (s.flight[tag].phase.Failed? ==>
                    && (Enabled(cfg, s, DeadLetter(tag)) <==> m.body.Undecodable? || m.body.kind == "" || j == limit)
                    && (Enabled(cfg, s, Reject(tag)) <==> !(m.body.Undecodable? || m.body.kind == "") && j < limit))
  {
    assert LadderOk(cfg, EMPTY);
    hide *;
    RunKeepsLadder(cfg, EMPTY, events);
    FailedOnLadder(cfg, After(cfg, EMPTY, events), tag);
  }
}
