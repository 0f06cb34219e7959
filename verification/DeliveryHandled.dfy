/**
 A message that nothing goes wrong with: from its delivery to its acknowledgement each registered
 route is run, in immediate or deferred mode, and commits its effects and its idempotency row.
 */
module DeliveryHandled {
  import opened Delivery

  /**
   What the runs leave open: in every state anybody may send a message, a queued message may be
   delivered, one that waits may expire, a delivery may lose its channel or its consumer or
   fail in a route, a publisher may get a confirm or none and commit or crash.
   */
  lemma AnythingMayHappen(cfg: Config, s: State)
    ensures forall m :: Enabled(cfg, s, Foreign(m))
    ensures forall tag, m | m in s.worker && tag !in s.flight :: Enabled(cfg, s, Deliver(tag, m))
    ensures forall m | m in s.retry :: Enabled(cfg, s, Expire(m))
    ensures forall tag | tag in s.flight :: Enabled(cfg, s, Die(tag))
    ensures forall tag | tag in s.flight && !s.flight[tag].lost :: Enabled(cfg, s, Requeue(tag))
    ensures forall tag, integrity |
              && tag in s.flight && s.flight[tag].phase.Routing? && s.flight[tag].message.body.Envelope?
              && s.flight[tag].message.body.kind in cfg.routes
              && s.flight[tag].phase.route < |cfg.routes[s.flight[tag].message.body.kind]| ::
              Enabled(cfg, s, Raise(tag, integrity))
    ensures forall id, kind, wellFormed, created | id !in s.outbox && id != "" :: Enabled(cfg, s, Emit(id, kind, wellFormed, created))
    ensures forall p, id | id in s.outbox && s.outbox[id].wellFormed :: Enabled(cfg, s, PublishOk(p, id))
    ensures forall p, id, taken, count | id in s.outbox && s.outbox[id].wellFormed :: Enabled(cfg, s, PublishFailed(p, id, taken, count))
    ensures forall p | p in s.publishers :: Enabled(cfg, s, PublisherCommit(p)) && Enabled(cfg, s, PublisherCrash(p))
  {
  }

  /**
   And what they exclude: a new row is unpublished and counts no retries, a row without a JSON object is never published, only messages that are
   there are delivered or expire, and a delivery takes its steps in their order: it looks for
   the row first, looks again only after an integrity error, commits only a row and a handler
   that are both there, and is dead-lettered or rejected only when it has failed.
   */
  lemma NothingElseHappens(cfg: Config, s: State, e: Event)
    requires Enabled(cfg, s, e)
    ensures e.PublishOk? || e.PublishFailed? ==> e.id in s.outbox && s.outbox[e.id].wellFormed
    ensures e.Emit? ==> e.id !in s.outbox && e.id != "" && Apply(cfg, s, e).outbox == s.outbox[e.id := Row(e.kind, e.wellFormed, e.created, false, 0)]
    ensures e.Requeue? ==> e.tag in s.flight && !s.flight[e.tag].lost
    ensures e.Deliver? ==> e.message in s.worker && e.tag !in s.flight
    ensures e.Expire? ==> e.message in s.retry
    ensures e.Select? || e.Recheck? || e.Commit? || e.Insert? || e.Run? || e.Raise? ==>
              && e.tag in s.flight && s.flight[e.tag].phase.Routing?
              && (e.Select? ==> s.flight[e.tag].phase.tx == NoTx)
              && (e.Recheck? ==> s.flight[e.tag].phase.tx == Aborted)
              && (e.Commit? ==> s.flight[e.tag].phase.tx == Open(true, true))
    ensures e.DeadLetter? || e.Reject? ==> e.tag in s.flight && s.flight[e.tag].phase == Failed
  {
  }

  /** The only message in hand is at the given phase. */
  ghost predicate Handling(s: State, tag: nat, m: Message, phase: Phase) {
    s.flight == map[tag := Unacked(m, false, phase)]
  }

  /** The message names a committed event, and its kind has routes with named consumers. */
  ghost predicate Routable(cfg: Config, s: State, m: Message) {
    && m.body.Envelope? && m.body.event != "" && m.body.event in s.outbox
    && m.body.kind in cfg.routes && cfg.routes[m.body.kind] != []
    && forall i | 0 <= i < |cfg.routes[m.body.kind]| :: cfg.routes[m.body.kind][i].consumer != ""
  }

  /** The idempotency key of a route. */
  ghost function RouteKey(cfg: Config, m: Message, i: nat): Key
    requires m.body.Envelope? && m.body.kind in cfg.routes && i < |cfg.routes[m.body.kind]|
  {
    (cfg.routes[m.body.kind][i].consumer, m.body.event)
  }

  ghost function MovedTo(s: State, tag: nat, m: Message, phase: Phase): State {
    s.(flight := map[tag := Unacked(m, false, phase)])
  }

  lemma StepIs(cfg: Config, s: State, e: Event, m: Message, phase: Phase)
    requires Enabled(cfg, s, e) && IsDeliveryEvent(e) && !e.DeadLetter? && Handling(s, e.tag, m, phase)
    ensures Apply(cfg, s, e) == MovedTo(s, e.tag, m, NextPhase(cfg, s, e)).(
              processed := s.processed + Committed(cfg, s, e), applied := s.applied + multiset(Committed(cfg, s, e)))
  {
    hide NextPhase, Committed;
    assert s.flight[e.tag := Unacked(m, false, NextPhase(cfg, s, e))] == map[e.tag := Unacked(m, false, NextPhase(cfg, s, e))];
  }

  /** One more step of the delivery in hand, other than its commit. */
  lemma Step(cfg: Config, start: State, s: State, e: Event, m: Message, phase: Phase) returns (n: State)
    requires Reaches(cfg, start, s) && Enabled(cfg, s, e) && IsDeliveryEvent(e) && !e.DeadLetter? && !e.Commit?
    requires Handling(s, e.tag, m, phase)
    ensures Reaches(cfg, start, n) && n == MovedTo(s, e.tag, m, NextPhase(cfg, s, e))
  {
    StepIs(cfg, s, e, m, phase);
    ghost var none: set<Key> := {};
    assert Committed(cfg, s, e) == none && s.processed + none == s.processed && s.applied + multiset(none) == s.applied;
    hide Reaches, Apply, Enabled, NextPhase;
    n := Apply(cfg, s, e);
    ReachesStep(cfg, start, s, e);
  }

  lemma NobodyElseHolds(cfg: Config, s: State, tag: nat, m: Message, phase: Phase, key: Key)
    requires Handling(s, tag, m, phase) && (phase.Routing? && phase.tx.Open? ==> !phase.tx.inserted)
    ensures !(exists other :: other in s.flight && Holds(cfg, s, other, key))
  {
  }

  /** In immediate mode a handler runs only behind its route's inserted row, in deferred mode the row is inserted only behind it. */
  lemma ModesOrder(cfg: Config, s: State, tag: nat)
    ensures Enabled(cfg, s, Run(tag)) || Enabled(cfg, s, Insert(tag)) ==>
              && tag in s.flight && s.flight[tag].phase.Routing? && s.flight[tag].message.body.Envelope?
              && s.flight[tag].message.body.kind in cfg.routes
              && s.flight[tag].phase.route < |cfg.routes[s.flight[tag].message.body.kind]| && s.flight[tag].phase.tx.Open?
              && var route, tx := cfg.routes[s.flight[tag].message.body.kind][s.flight[tag].phase.route], s.flight[tag].phase.tx;
                 && (Enabled(cfg, s, Run(tag)) ==> !tx.ran && tx.inserted == !route.deferred)
                 && (Enabled(cfg, s, Insert(tag)) ==> !tx.inserted && tx.ran == route.deferred)
  {
  }

  /** The delivery is at this route of its message, in the given transaction. */
  ghost predicate AtRoute(cfg: Config, s: State, tag: nat, m: Message, i: nat, tx: Tx) {
    && tag in s.flight && s.flight[tag].message == m && s.flight[tag].phase == Routing(i, tx)
    && m.body.Envelope? && m.body.kind in cfg.routes && i < |cfg.routes[m.body.kind]|
  }

  /**
   An open transaction that fails with an integrity error is a duplicate exactly if the route's
   row is there by then, and is skipped; without the row, and with any other error, the delivery
   has failed. None of this commits anything.
   */
  lemma LostRaceIsSkipped(cfg: Config, s: State, tag: nat, m: Message, i: nat, tx: Tx)
    requires AtRoute(cfg, s, tag, m, i, tx) && tx.Open?
    ensures var key := RouteKey(cfg, m, i);
            && Enabled(cfg, s, Raise(tag, true)) && Enabled(cfg, s, Raise(tag, false))
            && var again, failed := Apply(cfg, s, Raise(tag, true)), Apply(cfg, s, Raise(tag, false));
               && AtRoute(cfg, again, tag, m, i, Aborted) && Enabled(cfg, again, Recheck(tag))
               && var n := Apply(cfg, again, Recheck(tag));
                  && tag in n.flight && n.flight[tag].phase == (if key in s.processed then Routing(i + 1, NoTx) else Failed)
                  && tag in failed.flight && failed.flight[tag].phase == Failed
                  && n.processed == failed.processed == s.processed && n.applied == failed.applied == s.applied
  {
  }

  /** A route whose row is there is skipped without its handler; without an event id or a consumer's name the delivery fails. */
  lemma KnownIsSkipped(cfg: Config, s: State, tag: nat, m: Message, i: nat)
    requires AtRoute(cfg, s, tag, m, i, NoTx)
    ensures Enabled(cfg, s, Select(tag))
    ensures var n, key := Apply(cfg, s, Select(tag)), RouteKey(cfg, m, i);
            && tag in n.flight && n.processed == s.processed && n.applied == s.applied
            && (n.flight[tag].phase == Failed <==> key.0 == "" || key.1 == "")
            && (n.flight[tag].phase == Routing(i + 1, NoTx) <==> key.0 != "" && key.1 != "" && key in s.processed)
            && (n.flight[tag].phase != Failed && key !in s.processed ==> AtRoute(cfg, n, tag, m, i, Open(false, false)))
  {
  }

  /** The transaction of a route whose row is not there yet, up to its commit: the row first, or the handler first. */
  lemma RouteOpens(cfg: Config, start: State, s: State, tag: nat, m: Message, i: nat) returns (n: State)
    requires Reaches(cfg, start, s) && Routable(cfg, s, m) && i < |cfg.routes[m.body.kind]|
    requires Handling(s, tag, m, Routing(i, NoTx)) && RouteKey(cfg, m, i) !in s.processed
    ensures Reaches(cfg, start, n) && n == MovedTo(s, tag, m, Routing(i, Open(true, true)))
  {
    hide Reaches, Apply;
    var s1 := Step(cfg, start, s, Select(tag), m, Routing(i, NoTx));
    assert s1 == MovedTo(s, tag, m, Routing(i, Open(false, false)));
    NobodyElseHolds(cfg, s1, tag, m, Routing(i, Open(false, false)), RouteKey(cfg, m, i));
    if cfg.routes[m.body.kind][i].deferred {
      var s2 := Step(cfg, start, s1, Run(tag), m, Routing(i, Open(false, false)));
      NobodyElseHolds(cfg, s2, tag, m, Routing(i, Open(false, true)), RouteKey(cfg, m, i));
      n := Step(cfg, start, s2, Insert(tag), m, Routing(i, Open(false, true)));
    } else {
      var s2 := Step(cfg, start, s1, Insert(tag), m, Routing(i, Open(false, false)));
      n := Step(cfg, start, s2, Run(tag), m, Routing(i, Open(true, false)));
    }
  }

  /** The route is done: its row is there, and its effects were applied if the row is new. */
  ghost function Routed(cfg: Config, s: State, tag: nat, m: Message, i: nat): State
    requires m.body.Envelope? && m.body.kind in cfg.routes && i < |cfg.routes[m.body.kind]|
  {
    var key := RouteKey(cfg, m, i);
    MovedTo(s, tag, m, Routing(i + 1, NoTx)).(
      processed := s.processed + {key},
      applied := if key in s.processed then s.applied else s.applied + multiset{key})
  }

  lemma RouteRuns(cfg: Config, start: State, s: State, tag: nat, m: Message, i: nat) returns (n: State)
    requires Reaches(cfg, start, s) && Routable(cfg, s, m) && i < |cfg.routes[m.body.kind]|
    requires Handling(s, tag, m, Routing(i, NoTx))
    ensures Reaches(cfg, start, n) && n == Routed(cfg, s, tag, m, i)
  {
    hide Reaches, Apply;
    var key := RouteKey(cfg, m, i);
    if key in s.processed {
      n := Step(cfg, start, s, Select(tag), m, Routing(i, NoTx));
      assert s.processed + {key} == s.processed;
    } else {
      var s1 := RouteOpens(cfg, start, s, tag, m, i);
      StepIs(cfg, s1, Commit(tag, true), m, Routing(i, Open(true, true)));
      ReachesStep(cfg, start, s1, Commit(tag, true));
      n := Apply(cfg, s1, Commit(tag, true));
      assert multiset({key}) == multiset{key};
    }
  }

  /** The first `n` routes are done: their rows are there, and each new row's effects are applied once. */
  ghost predicate RoutesDone(cfg: Config, before: State, s: State, m: Message, n: nat)
    requires m.body.Envelope? && m.body.kind in cfg.routes && n <= |cfg.routes[m.body.kind]|
  {
    && (forall key :: key in s.processed <==> key in before.processed || exists i: nat :: i < n && key == RouteKey(cfg, m, i))
    && (forall key :: s.applied[key] == before.applied[key] + if key in s.processed && key !in before.processed then 1 else 0)
  }

  /** Everything else stays. */
  ghost predicate OthersStay(before: State, s: State) {
    s.outbox == before.outbox && s.publishers == before.publishers && s.retry == before.retry && s.dead == before.dead
  }

  lemma {:induction false} RoutesRun(cfg: Config, start: State, s: State, tag: nat, m: Message, n: nat) returns (r: State)
    requires Reaches(cfg, start, s) && Routable(cfg, s, m) && n <= |cfg.routes[m.body.kind]|
    requires Handling(s, tag, m, Routing(0, NoTx))
    ensures Reaches(cfg, start, r) && Handling(r, tag, m, Routing(n, NoTx)) && RoutesDone(cfg, s, r, m, n)
    ensures OthersStay(s, r) && r.worker == s.worker
    decreases n
  {
    hide Reaches;
    if n == 0 {
      r := s;
    } else {
      var before := RoutesRun(cfg, start, s, tag, m, n - 1);
      r := RouteRuns(cfg, start, before, tag, m, n - 1);
      var key := RouteKey(cfg, m, n - 1);
      forall k
        ensures k in r.processed <==> k in s.processed || exists i: nat :: i < n && k == RouteKey(cfg, m, i)
      {
        assert k in r.processed <==> k in before.processed || k == key;
      }
    }
  }

  /**
   From any state in which no other message is in hand, a message on the worker queue can be
   handled to its end: it is acknowledged, every route of its kind is processed, and the effects
   of exactly those that were not processed before are applied, once each.
   */
  lemma MessageIsHandled(cfg: Config, s: State, m: Message) returns (n: State)
    requires s.flight == map[] && m in s.worker && Routable(cfg, s, m)
    ensures Reaches(cfg, s, n) && n.flight == map[] && n.worker == s.worker - multiset{m} && OthersStay(s, n)
    ensures forall key :: key in n.processed <==>
              key in s.processed || exists i :: 0 <= i < |cfg.routes[m.body.kind]| && key == (cfg.routes[m.body.kind][i].consumer, m.body.event)
    ensures forall key :: n.applied[key] == s.applied[key] + if key in n.processed && key !in s.processed then 1 else 0
  {
    ReachesSelf(cfg, s);
    hide Reaches;
    ReachesStep(cfg, s, s, Deliver(0, m));
    var s1 := Apply(cfg, s, Deliver(0, m));
    assert s1.flight == map[0 := Unacked(m, false, Routing(0, NoTx))];
    var routes := cfg.routes[m.body.kind];
    var s2 := RoutesRun(cfg, s, s1, 0, m, |routes|);
    ReachesStep(cfg, s, s2, Ack(0));
    n := Apply(cfg, s2, Ack(0));
    assert n.flight == map[];
    forall key
      ensures key in n.processed <==> key in s.processed || exists i :: 0 <= i < |routes| && key == (routes[i].consumer, m.body.event)
    {
      if i :| 0 <= i < |routes| && key == (routes[i].consumer, m.body.event) {
        assert key == RouteKey(cfg, m, i);
      }
    }
  }
}
