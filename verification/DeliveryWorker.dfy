/**
 The publisher and the consumer as they change rows, messages and queues step by step. Each
 step is proved to be one event of the transition system, and the loops over pending events and
 over the routes of a message, with any events of the other parties in between, to be runs.
 */
module DeliveryWorker {
  import opened Delivery
  import opened Text
  import opened Wrappers

  datatype Error = InvalidArgument | PayloadError | HandlerError | Unavailable

  /** How the handling of a message ends; `Escaped` leaves it unacknowledged. */
  datatype Handled = Acked | Retried | Escaped

  /******* What the other parties cannot do *******/

  predicate Owned(e: Event, tags: set<nat>, sessions: set<nat>) {
    || ((IsDeliveryEvent(e) || e.Ack? || e.Reject? || e.Die?) && e.tag in tags)
    || (IsPublisherEvent(e) && e.publisher in sessions)
  }

  ghost predicate SameDelivery(a: map<nat, Unacked>, b: map<nat, Unacked>, tag: nat)
    requires tag in a
  {
    tag in b && b[tag].message == a[tag].message && b[tag].phase == a[tag].phase
  }

  /** The deliveries in `tags` keep their message and phase, and the publishers' sessions their writes. */
  ghost predicate Kept(s: State, n: State, tags: set<nat>, sessions: set<nat>) {
    && (forall tag | tag in tags && tag in s.flight :: SameDelivery(s.flight, n.flight, tag))
    && (forall p | p in sessions :: Session(n, p) == Session(s, p) && (p in n.publishers <==> p in s.publishers))
  }

  /** Idempotency rows and outbox rows stay. */
  ghost predicate Grows(s: State, n: State) {
    && s.processed <= n.processed
    && forall id :: id in s.outbox ==>
         id in n.outbox && n.outbox[id].kind == s.outbox[id].kind && n.outbox[id].wellFormed == s.outbox[id].wellFormed
  }

  lemma OthersKeep(cfg: Config, s: State, e: Event, tags: set<nat>, sessions: set<nat>)
    requires Enabled(cfg, s, e) && !Owned(e, tags, sessions)
    ensures Kept(s, Apply(cfg, s, e), tags, sessions)
  {
    if IsDeliveryEvent(e) {
      DeliveryKeepsFlight(cfg, s, e);
      hide Apply, Enabled;
    } else if IsQueueEvent(e) {
      QueueEventKeepsOthers(cfg, s, e, tags);
      hide Apply, Enabled;
    } else {
      PublisherEventKeepsOthers(cfg, s, e, sessions);
      hide Apply, Enabled;
    }
  }

  lemma PublisherEventKeepsOthers(cfg: Config, s: State, e: Event, sessions: set<nat>)
    requires Enabled(cfg, s, e) && (e.Emit? || IsPublisherEvent(e)) && !Owned(e, {}, sessions)
    ensures var n := Apply(cfg, s, e);
            && n.flight == s.flight
            && forall p | p in sessions :: Session(n, p) == Session(s, p) && (p in n.publishers <==> p in s.publishers)
  {
    hide RoutesOf, GivesUp, AllRoutesDone, Published, Taken, Written;
  }

  lemma QueueEventFlight(cfg: Config, s: State, e: Event)
    requires Enabled(cfg, s, e) && IsQueueEvent(e)
    ensures var n := Apply(cfg, s, e);
            && n.publishers == s.publishers
            && n.flight == if e.Foreign? || e.Expire? then s.flight
                           else if e.Deliver? then s.flight[e.tag := Unacked(e.message, false, Start(cfg, e.message.body))]
                           else if e.Requeue? then s.flight[e.tag := s.flight[e.tag].(lost := true)]
                           else s.flight - {e.tag}
  {
    hide RoutesOf, GivesUp, AllRoutesDone, Rejected, Expired, Start;
    if e.Foreign? || e.Expire? {
    } else if e.Deliver? {
    } else if e.Requeue? {
    }
  }

  lemma QueueEventKeepsOthers(cfg: Config, s: State, e: Event, tags: set<nat>)
    requires Enabled(cfg, s, e) && IsQueueEvent(e) && !Owned(e, tags, {})
    ensures Apply(cfg, s, e).publishers == s.publishers
    ensures forall tag | tag in tags && tag in s.flight ::
              SameDelivery(s.flight, Apply(cfg, s, e).flight, tag)
  {
    QueueEventFlight(cfg, s, e);
    hide Apply, GivesUp, AllRoutesDone, Start;
  }

  lemma EventGrows(cfg: Config, s: State, e: Event)
    requires Enabled(cfg, s, e)
    ensures Grows(s, Apply(cfg, s, e))
  {
    if IsDeliveryEvent(e) {
      DeliveryKeepsFlight(cfg, s, e);
      hide Apply, Enabled;
    } else if IsQueueEvent(e) {
      QueueEventKeepsDone(cfg, s, e);
      hide Apply, Enabled;
    } else {
      hide RoutesOf, Published, Taken, Session;
    }
  }

  /** The system has run from `start` to `s`. */
  ghost predicate Since(cfg: Config, start: State, s: State) {
    Reaches(cfg, start, s) && Grows(start, s)
  }

  lemma OneMore(cfg: Config, start: State, s: State, e: Event)
    requires Since(cfg, start, s) && Enabled(cfg, s, e)
    ensures Since(cfg, start, Apply(cfg, s, e)) && Grows(s, Apply(cfg, s, e))
  {
    EventGrows(cfg, s, e);
    ReachesStep(cfg, start, s, e);
    hide Reaches, Enabled, Apply;
  }

  /** The system has run from `s` to `n` without a commit of the publisher's session. */
  ghost predicate Uncommitted(cfg: Config, s: State, n: State, p: nat) {
    exists events :: IsRun(cfg, s, events) && After(cfg, s, events) == n && NoCommit(events, p)
  }

  predicate NoCommit(events: seq<Event>, p: nat) {
    forall k | 0 <= k < |events| :: !(events[k].PublisherCommit? && events[k].publisher == p)
  }

  lemma UncommittedSelf(cfg: Config, s: State, p: nat)
    ensures Uncommitted(cfg, s, s, p)
  {
    assert IsRun(cfg, s, []) && After(cfg, s, []) == s && NoCommit([], p);
  }

  lemma UncommittedTrans(cfg: Config, s: State, m: State, n: State, p: nat)
    requires Uncommitted(cfg, s, m, p) && Uncommitted(cfg, m, n, p)
    ensures Uncommitted(cfg, s, n, p)
  {
    var a :| IsRun(cfg, s, a) && After(cfg, s, a) == m && NoCommit(a, p);
    var b :| IsRun(cfg, m, b) && After(cfg, m, b) == n && NoCommit(b, p);
    hide IsRun, After;
    RunConcat(cfg, s, a, b);
    assert NoCommit(a + b, p);
  }

  lemma UncommittedStep(cfg: Config, s: State, m: State, e: Event, p: nat)
    requires Uncommitted(cfg, s, m, p) && Enabled(cfg, m, e) && !(e.PublisherCommit? && e.publisher == p)
    ensures Uncommitted(cfg, s, Apply(cfg, m, e), p)
  {
    hide Enabled, Apply;
    assert [e][1..] == [] && NoCommit([e], p);
    assert IsRun(cfg, Apply(cfg, m, e), []) && After(cfg, Apply(cfg, m, e), []) == Apply(cfg, m, e);
    assert IsRun(cfg, m, [e]) && After(cfg, m, [e]) == Apply(cfg, m, e);
    assert Uncommitted(cfg, m, Apply(cfg, m, e), p);
    hide Uncommitted;
    UncommittedTrans(cfg, s, m, Apply(cfg, m, e), p);
  }

  /******* The order of pending rows *******/

  /** Created before, or at the same time with a smaller id. */
  predicate Earlier(outbox: map<string, Row>, a: string, b: string) {
    && a in outbox && b in outbox
    && (outbox[a].created < outbox[b].created || (outbox[a].created == outbox[b].created && Less(a, b)))
  }

  predicate IsEarliest(outbox: map<string, Row>, ids: set<string>, id: string) {
    forall other | other in ids :: other == id || Earlier(outbox, id, other)
  }

  ghost predicate AllEarlier(outbox: map<string, Row>, events: seq<string>, ids: set<string>) {
    && (forall i, j | 0 <= i < j < |events| :: Earlier(outbox, events[i], events[j]))
    && forall i, id | 0 <= i < |events| && id in ids :: Earlier(outbox, events[i], id)
  }

  lemma NextEarliest(outbox: map<string, Row>, events: seq<string>, ids: set<string>, id: string)
    requires AllEarlier(outbox, events, ids) && id in ids && IsEarliest(outbox, ids, id)
    ensures AllEarlier(outbox, events + [id], ids - {id})
  {
    hide Earlier;
  }

  lemma {:induction false} EarliestExists(outbox: map<string, Row>, ids: set<string>) returns (first: string)
    requires ids != {} && forall id | id in ids :: id in outbox
    ensures first in ids && IsEarliest(outbox, ids, first)
    decreases |ids|
  {
    hide Less;
    var a :| a in ids;
    var rest := ids - {a};
    if rest == {} {
      first := a;
      assert ids == rest + {a};
    } else {
      var m := EarliestExists(outbox, rest);
      LessTotal(a, m);
      first := if Earlier(outbox, a, m) then a else m;
      forall b | b in ids
        ensures b == first || Earlier(outbox, first, b)
      {
        if b != a && b != m && Earlier(outbox, a, m) && outbox[a].created == outbox[m].created == outbox[b].created {
          LessTransitive(a, m, b);
        }
      }
    }
  }

  /** What a publisher's call has written: each of the first `i` events is published or counted as a retry. */
  ghost predicate Attempted(session: map<string, Write>, events: seq<string>, i: nat, counts: map<string, nat>, published: seq<string>)
    requires i <= |events|
  {
    && (forall id :: id in session || id in published ==> id in events[..i])
    && forall k | 0 <= k < i ::
         && events[k] in counts && events[k] in session
         && session[events[k]] == if events[k] in published then Publish else Retry(counts[events[k]] + 1)
  }

  lemma NoneAttempted(events: seq<string>, counts: map<string, nat>)
    ensures Attempted(map[], events, 0, counts, [])
  {
  }

  lemma OneMoreAttempt(session: map<string, Write>, events: seq<string>, i: nat, counts: map<string, nat>,
                       published: seq<string>, confirmed: bool)
    requires i < |events| && Attempted(session, events, i, counts, published) && events[i] in counts
    requires forall k | 0 <= k < i :: events[k] != events[i]
    ensures var id := events[i];
            Attempted(session[id := if confirmed then Publish else Retry(counts[id] + 1)], events, i + 1, counts,
                      if confirmed then published + [id] else published)
  {
    assert events[..i + 1] == events[..i] + [events[i]];
  }

  class EventSystem {
    const cfg: Config
    var outbox: map<string, Row>
    var publishers: map<nat, map<string, Write>>
    var worker: multiset<Message>
    var retry: multiset<Message>
    var flight: map<nat, Unacked>
    var dead: multiset<Body>
    var processed: set<Key>
    var applied: multiset<Key>

    function S(): State
      reads this
    {
      State(outbox, publishers, worker, retry, flight, dead, processed, applied)
    }

    constructor (cfg: Config)
      ensures this.cfg == cfg && S() == EMPTY
    {
      this.cfg := cfg;
      outbox, publishers, worker, retry := map[], map[], multiset{}, multiset{};
      flight, dead, processed, applied := map[], multiset{}, {}, multiset{};
    }

    method Become(s: State)
      modifies this
      ensures S() == s
    {
      outbox, publishers, worker, retry := s.outbox, s.publishers, s.worker, s.retry;
      flight, dead, processed, applied := s.flight, s.dead, s.processed, s.applied;
    }

    /** Any events of the other parties, but none of the given deliveries and sessions. */
    method Interfere(tags: set<nat>, sessions: set<nat>, ghost start: State)
      requires Since(cfg, start, S())
      modifies this
      ensures Since(cfg, start, S()) && Kept(old(S()), S(), tags, sessions) && Grows(old(S()), S())
      ensures forall p | p in sessions :: Uncommitted(cfg, old(S()), S(), p)
    {
      hide Enabled, Apply, Since, Owned, Uncommitted;
      var schedule: seq<Event> := *;
      forall p | p in sessions
        ensures Uncommitted(cfg, S(), S(), p)
      {
        UncommittedSelf(cfg, S(), p);
      }
      for i := 0 to |schedule|
        invariant Since(cfg, start, S()) && Kept(old(S()), S(), tags, sessions) && Grows(old(S()), S())
        invariant forall p | p in sessions :: Uncommitted(cfg, old(S()), S(), p)
      {
        var e := schedule[i];
        if Enabled(cfg, S(), e) && !Owned(e, tags, sessions) {
          OthersKeep(cfg, S(), e, tags, sessions);
          OneMore(cfg, start, S(), e);
          OthersCommitNothing(old(S()), S(), e, tags, sessions);
          Become(Apply(cfg, S(), e));
        }
      }
    }

    lemma OthersCommitNothing(s: State, m: State, e: Event, tags: set<nat>, sessions: set<nat>)
      requires Enabled(cfg, m, e) && !Owned(e, tags, sessions) && forall p | p in sessions :: Uncommitted(cfg, s, m, p)
      ensures forall p | p in sessions :: Uncommitted(cfg, s, Apply(cfg, m, e), p)
    {
      hide Enabled, Apply, Uncommitted;
      forall p | p in sessions
        ensures Uncommitted(cfg, s, Apply(cfg, m, e), p)
      {
        UncommittedStep(cfg, s, m, e, p);
      }
    }

    /******* The publisher *******/

    /** The pending rows in the order of their creation and ids, at most `limit` of them, and all of them if there are fewer. */
    method PendingEvents(limit: nat) returns (events: seq<string>)
      ensures |events| <= limit && forall i, j | 0 <= i < j < |events| :: events[i] != events[j]
      ensures forall id :: id in events ==> id in outbox && !outbox[id].published
      ensures |events| < limit ==> forall id :: id in outbox && !outbox[id].published ==> id in events
      ensures forall i, j | 0 <= i < j < |events| :: Earlier(outbox, events[i], events[j])
      ensures forall i, id | 0 <= i < |events| && id in outbox && !outbox[id].published && id !in events ::
                Earlier(outbox, events[i], id)
    {
      hide Earlier;
      var pending := set id | id in outbox && !outbox[id].published;
      events := [];
      while pending != {} && |events| < limit
        invariant |events| <= limit && forall i, j | 0 <= i < j < |events| :: events[i] != events[j]
        invariant forall id :: id in events ==> id in outbox && !outbox[id].published && id !in pending
        invariant forall id :: id in outbox && !outbox[id].published ==> id in pending || id in events
        invariant forall id :: id in pending ==> id in outbox && !outbox[id].published
        invariant AllEarlier(outbox, events, pending)
        decreases |pending|
      {
        ghost var first := EarliestExists(outbox, pending);
        var id :| id in pending && IsEarliest(outbox, pending, id);
        NextEarliest(outbox, events, pending, id);
        pending := pending - {id};
        events := events + [id];
      }
    }

    method Publish(p: nat, id: string, read: nat) returns (confirmed: bool, ghost e: Event)
      requires id in outbox && outbox[id].wellFormed
      modifies this`worker, this`publishers
      ensures e == (if confirmed then PublishOk(p, id) else PublishFailed(p, id, if e.PublishFailed? then e.taken else false, read + 1))
      ensures old(Enabled(cfg, S(), e)) && S() == Apply(cfg, old(S()), e)
    {
      confirmed := *;
      var taken: bool := *;
      taken := taken || confirmed;
      e := if confirmed then PublishOk(p, id) else PublishFailed(p, id, taken, read + 1);
      if taken {
        worker := worker + multiset{Published(S(), id)};
      }
      publishers := publishers[p := Session(S(), p)[id := if confirmed then Delivery.Publish else Retry(read + 1)]];
    }

    method CommitSession(p: nat)
      requires p in publishers
      modifies this`outbox, this`publishers
      ensures S() == Apply(cfg, old(S()), PublisherCommit(p))
    {
      outbox := map id | id in outbox :: if id in publishers[p] then Written(outbox[id], publishers[p][id]) else outbox[id];
      publishers := publishers - {p};
    }

    method RollBackSession(p: nat)
      requires p in publishers
      modifies this`publishers
      ensures S() == Apply(cfg, old(S()), PublisherCrash(p))
    {
      publishers := publishers - {p};
    }

    /**
     Publishes pending events and marks them only after the broker's confirm. A selected row
     whose payload is no JSON object makes the whole call fail, and then the session commits
     nothing, though the broker may have got the events before it. A failing commit may have
     been done all the same.
     */
    method PublishPendingEvents(p: nat, batchSize: int, ghost start: State)
      returns (r: Result<seq<string>, Error>, ghost selected: seq<string>, ghost confirmed: seq<string>, ghost committed: bool)
      requires Since(cfg, start, S()) && p !in publishers
      modifies this
      ensures Since(cfg, start, S()) && p !in publishers
      ensures r == Failure(InvalidArgument) <==> batchSize < 1
      ensures batchSize < 1 ==> S() == old(S())
      ensures batchSize >= 1 ==> |selected| <= batchSize && forall id :: id in selected ==> id in old(outbox)
      ensures r == Failure(PayloadError) <==> batchSize >= 1 && exists id :: id in selected && !old(outbox)[id].wellFormed
      ensures r.Failure? ==> r.error in {InvalidArgument, PayloadError, Unavailable}
      ensures r.Success? ==> committed && r.value == confirmed
      ensures committed ==> r.Success? || r == Failure(Unavailable)
      ensures !committed ==> Uncommitted(cfg, old(S()), S(), p)
      ensures committed ==> forall id :: id in confirmed ==> id in selected && id in outbox && outbox[id].published
      ensures committed ==> forall id :: id in selected && id !in confirmed ==>
                                           id in outbox && outbox[id].retries == old(outbox)[id].retries + 1
    {
      hide Since, Apply, Enabled, Attempted, Uncommitted;
      selected, confirmed, committed := [], [], false;
      UncommittedSelf(cfg, S(), p);
      if batchSize < 1 {
        return Failure(InvalidArgument), selected, confirmed, committed;
      }
      var events := PendingEvents(batchSize);
      selected := events;
      var counts := map id | id in outbox :: outbox[id].retries;
      var published: seq<string> := [];
      NoneAttempted(events, counts);
      for i := 0 to |events|
        invariant Since(cfg, start, S()) && Grows(old(S()), S()) && Uncommitted(cfg, old(S()), S(), p)
        invariant Attempted(Session(S(), p), events, i, counts, published) && (p in publishers <==> i > 0)
        invariant forall k | 0 <= k < i :: old(outbox)[events[k]].wellFormed
      {
        ghost var before := S();
        var done;
        done, published := AttemptOne(p, events, i, counts, published, start);
        UncommittedTrans(cfg, old(S()), before, S(), p);
        if !done {
          return Failure(PayloadError), selected, confirmed, committed;
        }
      }
      ghost var before := S();
      confirmed := published;
      var ok;
      ok, committed := CommitWrites(p, events, counts, published, start);
      if !committed {
        UncommittedTrans(cfg, old(S()), before, S(), p);
      }
      return if ok then Success(published) else Failure(Unavailable), selected, confirmed, committed;
    }

    /** Commits the session, unless no row was selected. The commit may fail before or after it is done. */
    method CommitWrites(p: nat, events: seq<string>, ghost counts: map<string, nat>, ghost published: seq<string>, ghost start: State)
      returns (ok: bool, ghost committed: bool)
      requires Since(cfg, start, S()) && (if events == [] then p !in publishers else p in publishers)
      requires Attempted(Session(S(), p), events, |events|, counts, published)
      requires forall id :: id in events ==> id in outbox
      modifies this`outbox, this`publishers
      ensures Since(cfg, start, S()) && p !in publishers
      ensures ok ==> committed
      ensures !committed ==> Uncommitted(cfg, old(S()), S(), p)
      ensures committed ==> forall id :: id in published ==> id in events && id in outbox && outbox[id].published
      ensures committed ==> forall id :: id in events && id !in published ==>
                                           id in counts && id in outbox && outbox[id].retries == counts[id] + 1
    {
      hide Since, Uncommitted;
      assert events[..|events|] == events;
      if events == [] {
        return true, true;
      }
      ok := *;
      var done: bool := *;
      done := done || ok;
      committed := done;
      if done {
        OneMore(cfg, start, S(), PublisherCommit(p));
        CommitSession(p);
      } else {
        GiveUpSession(p, start);
      }
    }

    /** Publishes one event, or gives the whole session up if its payload is no JSON object. */
    method AttemptOne(p: nat, events: seq<string>, i: nat, counts: map<string, nat>, published: seq<string>, ghost start: State)
      returns (done: bool, next: seq<string>)
      requires Since(cfg, start, S()) && i < |events| && forall k | 0 <= k < i :: events[k] != events[i]
      requires events[i] in outbox && events[i] in counts
      requires Attempted(Session(S(), p), events, i, counts, published)
      modifies this
      ensures Since(cfg, start, S()) && Grows(old(S()), S())
      ensures done <==> old(outbox)[events[i]].wellFormed
      ensures Uncommitted(cfg, old(S()), S(), p)
      ensures if done then p in publishers && Attempted(Session(S(), p), events, i + 1, counts, next) else p !in publishers
    {
      hide Since, Attempted, Uncommitted;
      Interfere({}, {p}, start);
      ghost var before := S();
      if !outbox[events[i]].wellFormed {
        GiveUpSession(p, start);
        UncommittedTrans(cfg, old(S()), before, S(), p);
        return false, published;
      }
      OneMoreAttempt(Session(S(), p), events, i, counts, published, true);
      OneMoreAttempt(Session(S(), p), events, i, counts, published, false);
      var confirmed := PublishOne(p, events[i], counts[events[i]], start);
      UncommittedTrans(cfg, old(S()), before, S(), p);
      return true, if confirmed then published + [events[i]] else published;
    }

    method GiveUpSession(p: nat, ghost start: State)
      requires Since(cfg, start, S())
      modifies this`publishers
      ensures Since(cfg, start, S()) && p !in publishers && Uncommitted(cfg, old(S()), S(), p)
    {
      hide Since, Uncommitted;
      UncommittedSelf(cfg, S(), p);
      if p in publishers {
        OneMore(cfg, start, S(), PublisherCrash(p));
        UncommittedStep(cfg, S(), S(), PublisherCrash(p), p);
        RollBackSession(p);
      }
    }

    method PublishOne(p: nat, id: string, read: nat, ghost start: State) returns (confirmed: bool)
      requires Since(cfg, start, S()) && id in outbox && outbox[id].wellFormed
      modifies this`worker, this`publishers
      ensures Since(cfg, start, S()) && Uncommitted(cfg, old(S()), S(), p)
      ensures publishers == old(publishers)[p := Session(old(S()), p)[id := if confirmed then Delivery.Publish else Retry(read + 1)]]
    {
      hide Since, Uncommitted;
      ghost var s := S();
      ghost var e;
      confirmed, e := Publish(p, id, read);
      OneMore(cfg, start, s, e);
      UncommittedSelf(cfg, s, p);
      UncommittedStep(cfg, s, s, e, p);
    }

    /******* One delivery *******/

    ghost predicate At(tag: nat, m: Message, phase: Phase)
      reads this
    {
      tag in flight && flight[tag].message == m && flight[tag].phase == phase
    }

    method SetRoute(tag: nat, phase: Phase)
      requires tag in flight
      modifies this`flight
      ensures S() == SetPhase(old(S()), tag, phase) && At(tag, old(flight[tag].message), phase)
    {
      flight := flight[tag := flight[tag].(phase := phase)];
    }

    /** Looks for the idempotency row before the route is run. */
    method FindProcessed(tag: nat) returns (existing: Result<bool, Error>)
      requires Enabled(cfg, S(), Select(tag))
      modifies this`flight
      ensures S() == Apply(cfg, old(S()), Select(tag))
      ensures existing == (if old(flight[tag].message.body.event == "" || RouteOf(cfg, S(), tag).consumer == "")
                           then Failure(InvalidArgument) else Success(old(KeyOf(cfg, S(), tag)) in processed))
      ensures var route := old(flight[tag].phase.route);
              At(tag, old(flight[tag].message),
                 match existing
                 case Failure(_) => Failed
                 case Success(found) => if found then Routing(route + 1, NoTx) else Routing(route, Open(false, false)))
    {
      var u := flight[tag];
      var key := KeyOf(cfg, S(), tag);
      if u.message.body.event == "" || key.0 == "" {
        SetRoute(tag, Failed);
        return Failure(InvalidArgument);
      }
      if key in processed {
        SetRoute(tag, Routing(u.phase.route + 1, NoTx));
        return Success(true);
      }
      SetRoute(tag, Routing(u.phase.route, Open(false, false)));
      return Success(false);
    }

    /** Inserts the idempotency row; the unique index and the foreign key may refuse it. */
    method InsertProcessed(tag: nat) returns (ok: bool)
      requires Enabled(cfg, S(), Insert(tag))
      modifies this`flight
      ensures S() == Apply(cfg, old(S()), Insert(tag))
      ensures ok <==> old(KeyOf(cfg, S(), tag)) !in processed && old(flight[tag].message.body.event) in outbox
      ensures At(tag, old(flight[tag].message),
                 Routing(old(flight[tag].phase.route), if ok then Open(true, old(flight[tag].phase.tx.ran)) else Aborted))
    {
      var u := flight[tag];
      if KeyOf(cfg, S(), tag) in processed || u.message.body.event !in outbox {
        SetRoute(tag, Routing(u.phase.route, Aborted));
        return false;
      }
      SetRoute(tag, Routing(u.phase.route, Open(true, u.phase.tx.ran)));
      return true;
    }

    method RunHandler(tag: nat)
      requires Enabled(cfg, S(), Run(tag))
      modifies this`flight
      ensures S() == Apply(cfg, old(S()), Run(tag))
      ensures At(tag, old(flight[tag].message), Routing(old(flight[tag].phase.route), Open(old(flight[tag].phase.tx.inserted), true)))
    {
      var phase := flight[tag].phase;
      SetRoute(tag, Routing(phase.route, Open(phase.tx.inserted, true)));
    }

    /** Commits the row and the handler's effects; the consumer may not learn that it did. */
    method CommitRoute(tag: nat, known: bool)
      requires Enabled(cfg, S(), Commit(tag, known))
      modifies this`flight, this`processed, this`applied
      ensures S() == Apply(cfg, old(S()), Commit(tag, known)) && old(KeyOf(cfg, S(), tag)) in processed
      ensures At(tag, old(flight[tag].message), if known then Routing(old(flight[tag].phase.route) + 1, NoTx) else Failed)
    {
      var key := KeyOf(cfg, S(), tag);
      var route := flight[tag].phase.route;
      processed := processed + {key};
      applied := applied + multiset{key};
      SetRoute(tag, if known then Routing(route + 1, NoTx) else Failed);
      assert multiset({key}) == multiset{key};
    }

    /** An exception in the transaction: an integrity error is looked into, any other fails the delivery. */
    method RaiseError(tag: nat, integrity: bool)
      requires Enabled(cfg, S(), Raise(tag, integrity))
      modifies this`flight
      ensures S() == Apply(cfg, old(S()), Raise(tag, integrity))
      ensures var phase := old(flight[tag].phase);
              At(tag, old(flight[tag].message), if integrity && phase.tx.Open? then Routing(phase.route, Aborted) else Failed)
    {
      var phase := flight[tag].phase;
      SetRoute(tag, if integrity && phase.tx.Open? then Routing(phase.route, Aborted) else Failed);
    }

    /** After the roll-back of an integrity error: was it a duplicate? */
    method FindDuplicate(tag: nat) returns (existing: bool)
      requires Enabled(cfg, S(), Recheck(tag))
      modifies this`flight
      ensures S() == Apply(cfg, old(S()), Recheck(tag)) && existing == old(KeyOf(cfg, S(), tag) in processed)
      ensures At(tag, old(flight[tag].message), if existing then Routing(old(flight[tag].phase.route) + 1, NoTx) else Failed)
    {
      existing := KeyOf(cfg, S(), tag) in processed;
      SetRoute(tag, if existing then Routing(flight[tag].phase.route + 1, NoTx) else Failed);
    }

    /** The message at one of its routes. */
    predicate HasRoute(m: Message, i: nat) {
      m.body.Envelope? && i < |RoutesOf(cfg, m.body.kind)|
    }

    ghost function KeyAt(m: Message, i: nat): Key
      requires HasRoute(m, i)
    {
      (RoutesOf(cfg, m.body.kind)[i].consumer, m.body.event)
    }

    /** Inserts the row unless the database fails or another transaction holds its index entry for too long. */
    method TryInsert(tag: nat, ghost m: Message, ghost i: nat, ghost ran: bool, ghost start: State) returns (ok: bool)
      requires Since(cfg, start, S()) && HasRoute(m, i) && At(tag, m, Routing(i, Open(false, ran)))
      requires RoutesOf(cfg, m.body.kind)[i].deferred == ran
      modifies this
      ensures Since(cfg, start, S()) && old(processed) <= processed
      ensures if ok then At(tag, m, Routing(i, Open(true, ran))) else At(tag, m, Routing(i, Aborted)) || At(tag, m, Failed)
    {
      hide Since, Apply, RoutesOf;
      Interfere({tag}, {}, start);
      var down: bool := *;
      if down || exists other :: other in flight && Holds(cfg, S(), other, KeyOf(cfg, S(), tag)) {
        OneMore(cfg, start, S(), Raise(tag, false));
        RaiseError(tag, false);
        return false;
      }
      OneMore(cfg, start, S(), Insert(tag));
      ok := InsertProcessed(tag);
    }

    method TryHandler(tag: nat, ghost m: Message, ghost i: nat, ghost inserted: bool, ghost start: State) returns (ok: bool)
      requires Since(cfg, start, S()) && HasRoute(m, i) && At(tag, m, Routing(i, Open(inserted, false)))
      requires RoutesOf(cfg, m.body.kind)[i].deferred == !inserted
      modifies this
      ensures Since(cfg, start, S()) && old(processed) <= processed
      ensures if ok then At(tag, m, Routing(i, Open(inserted, true))) else At(tag, m, Routing(i, Aborted)) || At(tag, m, Failed)
    {
      hide Since, Apply, RoutesOf;
      Interfere({tag}, {}, start);
      var raises, integrity: bool := *, *;
      if raises {
        OneMore(cfg, start, S(), Raise(tag, integrity));
        RaiseError(tag, integrity);
        return false;
      }
      OneMore(cfg, start, S(), Run(tag));
      RunHandler(tag);
      return true;
    }

    /** Commits, unless the database fails before or while it does. */
    method TryCommit(tag: nat, ghost m: Message, ghost i: nat, ghost start: State) returns (ok: bool)
      requires Since(cfg, start, S()) && HasRoute(m, i) && At(tag, m, Routing(i, Open(true, true)))
      modifies this
      ensures Since(cfg, start, S()) && old(processed) <= processed
      ensures if ok then At(tag, m, Routing(i + 1, NoTx)) && KeyAt(m, i) in processed
              else At(tag, m, Routing(i, Aborted)) || At(tag, m, Failed)
    {
      hide Since, Apply, RoutesOf;
      Interfere({tag}, {}, start);
      var down, integrity, known: bool := *, *, *;
      if down {
        OneMore(cfg, start, S(), Raise(tag, integrity));
        RaiseError(tag, integrity);
        return false;
      }
      OneMore(cfg, start, S(), Commit(tag, known));
      CommitRoute(tag, known);
      return known;
    }

    /** After an exception: a duplicate if the transaction met another one's row, and a failure otherwise. */
    method Resolve(tag: nat, ghost m: Message, ghost i: nat, ghost start: State) returns (r: Result<bool, Error>)
      requires Since(cfg, start, S()) && HasRoute(m, i) && (At(tag, m, Routing(i, Aborted)) || At(tag, m, Failed))
      modifies this
      ensures Since(cfg, start, S()) && old(processed) <= processed
      ensures r == Success(false) || r == Failure(HandlerError)
      ensures if r.Success? then At(tag, m, Routing(i + 1, NoTx)) && KeyAt(m, i) in processed else At(tag, m, Failed)
    {
      hide Since, Apply, RoutesOf;
      if flight[tag].phase.Failed? {
        return Failure(HandlerError);
      }
      Interfere({tag}, {}, start);
      OneMore(cfg, start, S(), Recheck(tag));
      var existing := FindDuplicate(tag);
      return if existing then Success(false) else Failure(HandlerError);
    }

    /**
     Runs one route of a message at most once: true if this call committed it, false for a
     duplicate; in both cases the idempotency row exists. After an error nothing is known of
     the commit, and the delivery has failed.
     */
    method ConsumeOnce(tag: nat, m: Message, i: nat, ghost start: State) returns (r: Result<bool, Error>)
      requires Since(cfg, start, S()) && HasRoute(m, i) && At(tag, m, Routing(i, NoTx))
      modifies this
      ensures Since(cfg, start, S()) && old(processed) <= processed
      ensures r.Success? ==> At(tag, m, Routing(i + 1, NoTx)) && KeyAt(m, i) in processed
      ensures r == Success(true) ==> KeyAt(m, i) !in old(processed)
      ensures r.Failure? ==> At(tag, m, Failed)
      ensures m.body.event == "" ==> r.Failure?
    {
      hide Since, Apply;
      var route := RoutesOf(cfg, m.body.kind)[i];
      Interfere({tag}, {}, start);
      var down: bool := *;
      if down {
        OneMore(cfg, start, S(), Raise(tag, false));
        RaiseError(tag, false);
        return Failure(Unavailable);
      }
      OneMore(cfg, start, S(), Select(tag));
      var existing := FindProcessed(tag);
      if existing.Failure? {
        return existing;
      }
      if existing.value {
        return Success(false);
      }
      r := RunRoute(tag, m, i, route.deferred, start);
    }

    /** The transaction of a route whose row was not found: row first or handler first, then commit. */
    method RunRoute(tag: nat, ghost m: Message, ghost i: nat, deferred: bool, ghost start: State) returns (r: Result<bool, Error>)
      requires Since(cfg, start, S()) && HasRoute(m, i) && At(tag, m, Routing(i, Open(false, false)))
      requires deferred == RoutesOf(cfg, m.body.kind)[i].deferred
      modifies this
      ensures Since(cfg, start, S()) && old(processed) <= processed
      ensures if r.Success? then At(tag, m, Routing(i + 1, NoTx)) && KeyAt(m, i) in processed else At(tag, m, Failed)
    {
      hide Since, RoutesOf;
      var ok := true;
      if !deferred {
        ok := TryInsert(tag, m, i, false, start);
      }
      if ok {
        ok := TryHandler(tag, m, i, !deferred, start);
      }
      if ok && deferred {
        ok := TryInsert(tag, m, i, true, start);
      }
      if ok {
        ok := TryCommit(tag, m, i, start);
      }
      if ok {
        return Success(true);
      }
      r := Resolve(tag, m, i, start);
    }

    /** The message's routes, one after the other, up to the first error. */
    method ConsumeRoutes(tag: nat, m: Message, ghost start: State) returns (ok: bool)
      requires Since(cfg, start, S()) && At(tag, m, Start(cfg, m.body))
      modifies this
      ensures Since(cfg, start, S())
      ensures if ok then m.body.Envelope? && At(tag, m, Routing(|RoutesOf(cfg, m.body.kind)|, NoTx))
                         && ProcessedByAll(cfg, S(), m.body.event, m.body.kind)
              else At(tag, m, Failed)
    {
      hide Since, RoutesOf;
      if m.body.Undecodable? || RoutesOf(cfg, m.body.kind) == [] {
        return false;
      }
      var routes := RoutesOf(cfg, m.body.kind);
      for i := 0 to |routes|
        invariant Since(cfg, start, S()) && At(tag, m, Routing(i, NoTx))
        invariant ProcessedBefore(processed, routes, m.body.event, i)
      {
        var r := ConsumeOnce(tag, m, i, start);
        if r.Failure? {
          return false;
        }
      }
      AllProcessed(cfg, S(), m.body.event, m.body.kind);
      return true;
    }

    method Acknowledge(tag: nat, ghost start: State)
      requires Since(cfg, start, S()) && Enabled(cfg, S(), Ack(tag))
      modifies this`flight
      ensures Since(cfg, start, S()) && tag !in flight
    {
      hide Since;
      OneMore(cfg, start, S(), Ack(tag));
      flight := flight - {tag};
    }

    /** Publishes to the dead-letter exchange. */
    method PublishDeadLetter(tag: nat, ghost m: Message, ghost start: State)
      requires Since(cfg, start, S()) && At(tag, m, Failed) && GivesUp(cfg, m)
      modifies this`flight, this`dead
      ensures Since(cfg, start, S()) && At(tag, m, DeadLettered) && m.body in dead
    {
      hide Since, GivesUp;
      OneMore(cfg, start, S(), DeadLetter(tag));
      dead := dead + multiset{flight[tag].message.body};
      SetRoute(tag, DeadLettered);
      ghost var none: set<Key> := {};
      assert processed + none == processed && applied + multiset(none) == applied;
    }

    method RejectMessage(tag: nat, ghost m: Message, ghost start: State)
      requires Since(cfg, start, S()) && At(tag, m, Failed) && !GivesUp(cfg, m)
      modifies this`flight, this`retry
      ensures Since(cfg, start, S()) && tag !in flight
      ensures retry == if old(flight[tag].lost) then old(retry) else old(retry) + multiset{Rejected(m)}
    {
      hide Since, GivesUp;
      OneMore(cfg, start, S(), Reject(tag));
      if !flight[tag].lost {
        retry := retry + multiset{Rejected(flight[tag].message)};
      }
      flight := flight - {tag};
    }

    /**
     Handles a delivered message. It is acknowledged only if every route of its kind has its
     idempotency row, or it is in the dead-letter queue and its attempts were used up or it
     was malformed; it is rejected to the retry queue only if attempts are left.
     */
    method HandleMessage(tag: nat, ghost start: State) returns (r: Handled)
      requires Since(cfg, start, S()) && tag in flight && flight[tag].phase == Start(cfg, flight[tag].message.body)
      modifies this
      ensures Since(cfg, start, S()) && (r == Escaped || tag !in flight)
      ensures var m := old(flight[tag].message);
              && (r == Acked ==>
                    || (m.body.Envelope? && ProcessedByAll(cfg, S(), m.body.event, m.body.kind))
                    || (m.body in dead && GivesUp(cfg, m)))
              && (r == Retried ==> !GivesUp(cfg, m))
              && (r == Escaped ==> At(tag, m, Failed) || At(tag, m, DeadLettered) || (tag in flight && AllRoutesDone(cfg, flight[tag])))
    {
      hide Since, GivesUp, Start, RoutesOf;
      var m := flight[tag].message;
      var ok := ConsumeRoutes(tag, m, start);
      var unreachable: bool := *;
      if unreachable {
        return Escaped;
      }
      if ok {
        Acknowledge(tag, start);
        return Acked;
      }
      if GivesUp(cfg, m) {
        // The route's terminal failure handler runs here; if it raises, the exception escapes.
        PublishDeadLetter(tag, m, start);
        var acked: bool := *;
        if !acked {
          return Escaped;
        }
        Acknowledge(tag, start);
        return Acked;
      }
      RejectMessage(tag, m, start);
      return Retried;
    }
  }
}
