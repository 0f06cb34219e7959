/**
 The repository methods and the worker's loop as they change the tables and the stores step by
 step. Each method is proved to make exactly one event of the transition system or none, and
 the loop, with any events of the other parties between its steps, to be a run of it.
 */
module ProjectionWorker {
  import opened Text
  import opened Projection
  import opened ProjectionEffects
  import opened ProjectionSafety
  import opened Wrappers

  /** `Blocked` stands for a statement that still waits for a row lock: it has not happened. */
  datatype Error = InvalidArgument | UniqueViolation | Blocked | Unavailable

  ghost predicate Candidate(s: State, t: nat) {
    t in s.db.tasks && s.db.tasks[t].status.Requested? && s.db.tasks[t].availableAt <= s.now
  }

  /** Every lease that is over is back in the queue; only the claimed task is left out. */
  ghost predicate LeasesRecovered(before: map<nat, Task>, after: map<nat, Task>, claimed: Option<nat>, now: nat) {
    forall u | u in before && claimed != Some(u) ::
      u in after
      && after[u] == if before[u].status.Leased? && before[u].status.expires <= now
                     then before[u].(status := Requested, availableAt := now) else before[u]
  }

  lemma RecoverMeans(cfg: Config, s: State)
    ensures var n := Apply(cfg, s, Recover);
            n.db.tasks.Keys == s.db.tasks.Keys && LeasesRecovered(s.db.tasks, n.db.tasks, None, s.now) && n.now == s.now
  {
  }

  lemma ClaimMeans(cfg: Config, s: State, token: nat, t: nat)
    requires Enabled(s, Claim(token, t))
    ensures var n := Apply(cfg, s, Claim(token, t));
            && n.db.tasks.Keys == s.db.tasks.Keys && LeasesRecovered(s.db.tasks, n.db.tasks, Some(t), s.now) && n.now == s.now
            && t in s.db.tasks && token in n.attempts
            && var was, a := s.db.tasks[t], n.attempts[token];
               && was.status.Requested? && was.availableAt <= s.now
               && n.db.tasks[t] == was.(status := Leased(token, s.now + cfg.lease), attempts := was.attempts + 1)
               && a.task == t && a.memory == was.memory && a.user == was.user && a.version == was.version
               && a.count == was.attempts + 1
  {
    assert t in RecoverLeases(s).db.tasks;
  }

  ghost function Above(s: set<nat>): (b: nat)
    ensures forall k | k in s :: k < b
  {
    if s == {} then 0
    else
      var k :| k in s;
      var b := Above(s - {k});
      assert forall j | j in s :: j == k || j in s - {k};
      if k < b then b else k + 1
  }

  /** The worker is about to make the given step; its lock may be lost without its notice. */
  predicate At(phase: Phase, source: Row, step: Step) {
    phase == Locked(source, step) || phase == Adrift(source, step)
  }

  /** The same attempt, except that its database session may have been lost. */
  predicate SameOrAdrift(a: Attempt, b: Attempt) {
    b == a || (a.phase.Locked? && b == a.(phase := Adrift(a.phase.source, a.phase.step)))
  }

  /** What other parties can never change about the attempts in `own`, nor claim again. */
  ghost predicate Undisturbed(s: State, n: State, own: set<nat>) {
    && (forall k | k in own && k in s.attempts :: k in n.attempts && SameOrAdrift(s.attempts[k], n.attempts[k]))
    && s.db.claims.Keys <= n.db.claims.Keys
    && (forall k | k in n.attempts :: k in s.attempts || k !in s.db.claims)
  }

  predicate EventOf(e: Event, own: set<nat>) {
    IsWorkerEvent(e) && !e.Disconnect? && e.token in own
  }

  lemma OthersDisturbNone(cfg: Config, s: State, e: Event, own: set<nat>)
    requires Enabled(s, e) && !EventOf(e, own) && own <= s.db.claims.Keys
    ensures Undisturbed(s, Apply(cfg, s, e), own)
  {
    if e.Disconnect? {
      hide RowLocked, HasTravelProfile;
    } else if IsWorkerEvent(e) {
      WorkerTouchesOne(cfg, s, e);
      OthersRestate(cfg, s, e);
      hide Apply, Enabled;
    } else {
      hide RowLocked, HasTravelProfile, IsActiveTravelProfile, Whole, StoreEffect;
    }
  }

  lemma ReachesKeepsInv(cfg: Config, s: State, n: State)
    requires Reaches(cfg, s, n) && Inv(cfg, s)
    ensures Inv(cfg, n)
  {
    hide Inv, IsRun, After;
    var events :| IsRun(cfg, s, events) && After(cfg, s, events) == n;
    RunKeepsInv(cfg, s, events);
  }

  /** One more event, of any party, in the life of the system since `start`. */
  lemma OneMore(cfg: Config, start: State, s: State, e: Event)
    requires Since(cfg, start, s) && Enabled(s, e)
    ensures Since(cfg, start, Apply(cfg, s, e))
  {
    OthersDisturbNone(cfg, s, e, {});
    ReachesStep(cfg, start, s, e);
    hide Reaches, Enabled, Apply;
  }

  /** The system has run from `start` to `s`; attempts that were over stay over. */
  ghost predicate Since(cfg: Config, start: State, s: State) {
    Reaches(cfg, start, s) && Undisturbed(start, s, {})
  }

  lemma SinceTrans(cfg: Config, a: State, b: State, c: State)
    requires Since(cfg, a, b) && Since(cfg, b, c)
    ensures Since(cfg, a, c) && Undisturbed(b, c, {})
  {
    ReachesTrans(cfg, a, b, c);
    hide Reaches;
  }

  lemma SinceSelf(cfg: Config, s: State)
    ensures Since(cfg, s, s)
  {
    ReachesSelf(cfg, s);
    hide Reaches;
  }

  lemma SinceKeepsInv(cfg: Config, s: State, n: State)
    requires Since(cfg, s, n)
    ensures Reaches(cfg, s, n) && (Inv(cfg, s) ==> Inv(cfg, n))
  {
    hide Inv, Reaches;
    if Inv(cfg, s) {
      ReachesKeepsInv(cfg, s, n);
    }
  }

  /** The tokens were issued after `start`, and the attempts with them are over. */
  ghost predicate OwnOver(start: State, s: State, mine: set<nat>) {
    mine !! start.db.claims.Keys && mine <= s.db.claims.Keys && mine !! s.attempts.Keys
  }

  lemma OwnOverKeeps(start: State, s: State, n: State, mine: set<nat>)
    requires OwnOver(start, s, mine) && Undisturbed(s, n, {})
    ensures OwnOver(start, n, mine)
  {
  }

  lemma OwnOverSame(start: State, s: State, n: State, mine: set<nat>)
    requires OwnOver(start, s, mine) && n.attempts == s.attempts && n.db.claims == s.db.claims
    ensures OwnOver(start, n, mine)
  {
  }

  /** One more attempt is opened and closed. */
  lemma OwnOverAdds(start: State, s: State, m: State, n: State, mine: set<nat>, token: nat)
    requires OwnOver(start, s, mine) && Undisturbed(start, s, {}) && token !in s.db.claims
    requires m.db.claims.Keys == s.db.claims.Keys + {token} && m.attempts.Keys == s.attempts.Keys + {token}
    requires Undisturbed(m, n, {}) && token !in n.attempts
    ensures OwnOver(start, n, mine + {token}) && |mine + {token}| == |mine| + 1
  {
  }

  lemma RecoveryOpensNone(cfg: Config, s: State)
    ensures Enabled(s, Recover)
    ensures var n := Apply(cfg, s, Recover); n.attempts == s.attempts && n.db.claims == s.db.claims
  {
  }

  lemma ClaimOpensOne(cfg: Config, s: State, token: nat, task: nat)
    requires Enabled(s, Claim(token, task))
    ensures var n := Apply(cfg, s, Claim(token, task));
            && n.attempts.Keys == s.attempts.Keys + {token} && n.db.claims.Keys == s.db.claims.Keys + {token}
            && n.attempts[token].phase.Claimed?
  {
  }

  /** At `last` no task was there to be claimed, and the claim only recovered leases. */
  ghost predicate NothingLeft(cfg: Config, last: State, n: State) {
    n == Apply(cfg, last, Recover) && forall t :: !Candidate(last, t)
  }

  /** Why the loop ended: after `limit` tasks, without a task or a connection, or with a failed pass. */
  datatype Stop = Refused | Exhausted | NoTask(last: State) | NoConnection | PassFailed

  /** How a pass ended: did it add to the count, commit the completion, and live on? */
  datatype Outcome = Outcome(counted: bool, done: bool, alive: bool)

  class MemorySystem {
    const cfg: Config
    var now: nat
    var memories: map<string, Row>
    var tasks: map<nat, Task>
    var past: map<(string, nat), Row>
    var claims: map<nat, nat>
    var dense: Index
    var text: Index
    var attempts: map<nat, Attempt>

    function S(): State
      reads this
    {
      State(now, Tables(memories, tasks, past, claims), dense, text, attempts)
    }

    constructor (cfg: Config)
      ensures this.cfg == cfg && S() == EMPTY
    {
      this.cfg := cfg;
      now, memories, tasks, past, claims, dense, text, attempts := 0, map[], map[], map[], map[], map[], map[], map[];
    }

    /******* The repository *******/

    /** Inserts or updates a memory row and enqueues the task for its version, in one transaction. */
    method Commit(id: string, row: Row, task: nat)
      modifies this
      ensures S() == Write(old(S()), id, row, task)
    {
      memories := memories[id := row];
      past := past[(id, row.version) := row];
      EnqueueProjectionTask(task, id, row.user, row.version);
    }

    method EnqueueProjectionTask(task: nat, id: string, user: string, version: nat)
      modifies this`tasks
      ensures tasks == old(tasks)[task := Task(id, user, version, Requested, 0, now)]
    {
      tasks := tasks[task := Task(id, user, version, Requested, 0, now)];
    }

    /** `id` and `task` are the identifiers the source draws with uuid4; a clash violates a primary key. */
    method CreateMemory(user: string, memoryType: string, key: string, value: string,
                        source: string, confidence: real, id: string, task: nat) returns (r: Result<string, Error>)
      modifies this
      ensures var e := Create(id, user, if memoryType == "profile" then Profile else Episodic, key, value, task);
              && r == (if memoryType !in ["profile", "episodic"] || Blank(key) || Blank(source) || !(0.0 <= confidence <= 1.0)
                       then Failure(InvalidArgument)
                       else if old(Enabled(S(), e)) then Success(id) else Failure(UniqueViolation))
              && S() == (if r.Success? then Apply(cfg, old(S()), e) else old(S()))
      ensures r == Failure(UniqueViolation) ==>
                || id in old(memories) || task in old(tasks)
                || (memoryType == "profile" && key == "travel_profile" && !NoTravelProfile(old(memories), user))
      ensures r.Success? ==>
                && id !in old(memories) && OthersStay(old(memories), memories, id)
                && (memoryType == "profile" && key == "travel_profile" ==> NoTravelProfile(old(memories), user))
                && memories[id].user == user && memories[id].key == key && memories[id].value == value
                && (memories[id].kind == Profile <==> memoryType == "profile") && !memories[id].deleted && memories[id].version == 1
                && Enqueued(old(tasks), tasks, task, id, memories[id], now)
    {
      StripBlank(key);
      StripBlank(source);
      hide Strip, Blank;
      if memoryType != "profile" && memoryType != "episodic" {
        return Failure(InvalidArgument);
      }
      if Strip(key) == "" || Strip(source) == "" || !(0.0 <= confidence <= 1.0) {
        return Failure(InvalidArgument);
      }
      var kind := if memoryType == "profile" then Profile else Episodic;
      var clash := kind == Profile && key == TRAVEL_PROFILE && HasTravelProfile(S(), user);
      if id in memories || task in tasks || clash {
        return Failure(UniqueViolation);
      }
      Commit(id, Row(user, kind, key, value, false, 1), task);
      return Success(id);
    }

    /** Updates the user's active travel profile if there is one and inserts it under `id` otherwise. */
    method UpsertProfileMemory(user: string, key: string, value: string, source: string, confidence: real,
                               id: string, task: nat) returns (r: Result<string, Error>)
      modifies this
      ensures r.Failure? ==> S() == old(S())
      ensures r.Success? ==>
                var e := Upsert(r.value, user, value, task);
                old(Enabled(S(), e)) && S() == Apply(cfg, old(S()), e) && (r.value == id || old(HasTravelProfile(S(), user)))
      ensures r.Success? ==>
                && OthersStay(old(memories), memories, r.value)
                && memories[r.value].user == user && memories[r.value].kind == Profile && memories[r.value].key == key
                && memories[r.value].value == value && !memories[r.value].deleted
                && memories[r.value].version == (if r.value in old(memories) then old(memories)[r.value].version + 1 else 1)
                && (r.value in old(memories) ==> !old(memories)[r.value].deleted && old(memories)[r.value].user == user)
                && Enqueued(old(tasks), tasks, task, r.value, memories[r.value], now)
      ensures r == Failure(InvalidArgument) <==> key != TRAVEL_PROFILE || Blank(source) || !(0.0 <= confidence <= 1.0)
      ensures r == Failure(Blocked) ==> exists m :: m in old(memories) && !Unlocked(old(S()), m)
      ensures r == Failure(UniqueViolation) ==> id in old(memories) || task in old(tasks)
      ensures r != Failure(Unavailable)
    {
      StripBlank(source);
      hide Strip, Blank;
      if key != TRAVEL_PROFILE || Strip(source) == "" || !(0.0 <= confidence <= 1.0) {
        return Failure(InvalidArgument);
      }
      if task in tasks {
        return Failure(UniqueViolation);
      }
      if m :| m in memories && IsActiveTravelProfile(memories[m], user) {
        if RowLocked(S(), m) {
          return Failure(Blocked);
        }
        Commit(m, memories[m].(value := value, version := memories[m].version + 1), task);
        return Success(m);
      }
      if id in memories {
        return Failure(UniqueViolation);
      }
      Commit(id, Row(user, Profile, TRAVEL_PROFILE, value, false, 1), task);
      return Success(id);
    }

    /** Nothing happens to a memory that is missing, deleted or somebody else's. */
    method UpdateMemory(user: string, id: string, value: string, source: string, confidence: real, task: nat)
      returns (r: Result<bool, Error>)
      modifies this
      ensures r == (if Blank(source) || !(0.0 <= confidence <= 1.0) then Failure(InvalidArgument)
                    else if id !in old(memories) || old(memories)[id].user != user || old(memories)[id].deleted then Success(false)
                    else if !Unlocked(old(S()), id) then Failure(Blocked)
                    else if task in old(tasks) then Failure(UniqueViolation)
                    else Success(true))
      ensures r == Success(true) ==>
                var e := Update(id, user, value, task); old(Enabled(S(), e)) && S() == Apply(cfg, old(S()), e)
      ensures r == Success(true) ==>
                && id in old(memories) && OthersStay(old(memories), memories, id)
                && var was, row := old(memories)[id], memories[id];
                   && row.value == value && !row.deleted && row.user == was.user == user && row.kind == was.kind && row.key == was.key
                   && row.version == was.version + 1 && Enqueued(old(tasks), tasks, task, id, row, now)
      ensures r != Success(true) ==> S() == old(S())
    {
      StripBlank(source);
      hide Strip, Blank;
      if Strip(source) == "" || !(0.0 <= confidence <= 1.0) {
        return Failure(InvalidArgument);
      }
      if id !in memories || memories[id].user != user || memories[id].deleted {
        return Success(false);
      }
      if RowLocked(S(), id) {
        return Failure(Blocked);
      }
      if task in tasks {
        return Failure(UniqueViolation);
      }
      Commit(id, memories[id].(value := value, version := memories[id].version + 1), task);
      return Success(true);
    }

    method DeleteMemory(user: string, id: string, task: nat) returns (r: Result<bool, Error>)
      modifies this
      ensures r == (if id !in old(memories) || old(memories)[id].user != user || old(memories)[id].deleted then Success(false)
                    else if !Unlocked(old(S()), id) then Failure(Blocked)
                    else if task in old(tasks) then Failure(UniqueViolation)
                    else Success(true))
      ensures r == Success(true) ==>
                var e := Delete(id, user, task); old(Enabled(S(), e)) && S() == Apply(cfg, old(S()), e)
      ensures r == Success(true) ==>
                && id in old(memories) && OthersStay(old(memories), memories, id)
                && var was, row := old(memories)[id], memories[id];
                   && !was.deleted && row.deleted && row.value == was.value
                   && row.user == was.user == user && row.kind == was.kind && row.key == was.key
                   && row.version == was.version + 1 && Enqueued(old(tasks), tasks, task, id, row, now)
      ensures r != Success(true) ==> S() == old(S())
    {
      if id !in memories || memories[id].user != user || memories[id].deleted {
        return Success(false);
      }
      if RowLocked(S(), id) {
        return Failure(Blocked);
      }
      if task in tasks {
        return Failure(UniqueViolation);
      }
      Commit(id, memories[id].(deleted := true, version := memories[id].version + 1), task);
      return Success(true);
    }

    /******* One step of a worker *******/

    /** The statement behind `ClaimTask`. */
    method TakeTask(token: nat) returns (claimed: Option<nat>)
      requires token !in claims
      modifies this
      ensures claimed.None? ==> S() == Apply(cfg, old(S()), Recover) && forall t :: !old(Candidate(S(), t))
      ensures claimed.Some? ==>
                var e := Claim(token, claimed.value); old(Enabled(S(), e)) && S() == Apply(cfg, old(S()), e)
    {
      if t :| t in tasks && tasks[t].status.Requested? && tasks[t].availableAt <= now {
        var task := tasks[t];
        tasks := map u | u in tasks :: Recovered(tasks[u], now);
        tasks := tasks[t := task.(status := Leased(token, now + cfg.lease), attempts := task.attempts + 1)];
        claims := claims[token := t];
        attempts := attempts[token := Attempt(t, task.memory, task.user, task.version, task.attempts + 1, now + cfg.lease, Claimed)];
        return Some(t);
      }
      tasks := map u | u in tasks :: Recovered(tasks[u], now);
      return None;
    }

    /** Recovers expired leases and claims a task that was in the queue before the recovery. */
    method ClaimTask(token: nat) returns (claimed: Option<nat>)
      requires token !in claims
      modifies this
      ensures claimed.None? ==> S() == Apply(cfg, old(S()), Recover) && forall t :: !old(Candidate(S(), t))
      ensures claimed.Some? ==>
                var e := Claim(token, claimed.value); old(Enabled(S(), e)) && S() == Apply(cfg, old(S()), e)
      ensures tasks.Keys == old(tasks).Keys && LeasesRecovered(old(tasks), tasks, claimed, now)
      ensures claimed.Some? ==>
                && claimed.value in old(tasks)
                && var was, a := old(tasks)[claimed.value], attempts[token];
                   && was.status.Requested? && was.availableAt <= now
                   && tasks[claimed.value] == was.(status := Leased(token, now + cfg.lease), attempts := was.attempts + 1)
                   && a.task == claimed.value && a.memory == was.memory && a.user == was.user && a.version == was.version
                   && a.count == was.attempts + 1
    {
      ghost var before := S();
      claimed := TakeTask(token);
      RecoverMeans(cfg, before);
      if claimed.Some? {
        ClaimMeans(cfg, before, token, claimed.value);
      }
      hide Apply, Enabled, LeasesRecovered;
    }

    method SetAttempt(token: nat, phase: Phase)
      requires token in attempts
      modifies this`attempts
      ensures S() == SetPhase(old(S()), token, phase)
    {
      attempts := attempts[token := attempts[token].(phase := phase)];
    }

    /** Takes the row lock and reads the source. */
    method LockSource(token: nat)
      requires Enabled(S(), Lock(token))
      modifies this`attempts
      ensures S() == Apply(cfg, old(S()), Lock(token))
      ensures token in attempts && attempts[token].phase == AfterLock(old(S()), old(attempts[token]))
      ensures var a := old(attempts[token]);
              attempts[token].phase
              == if a.memory !in memories || memories[a.memory].user != a.user || memories[a.memory].version < a.version then Failed
                 else if memories[a.memory].version > a.version then Superseded
                 else Locked(memories[a.memory], DeleteDense)
    {
      var a := attempts[token];
      if a.memory !in memories || memories[a.memory].user != a.user {
        SetAttempt(token, Failed);
        return;
      }
      var source := memories[a.memory];
      if source.version < a.version {
        SetAttempt(token, Failed);
      } else if source.version > a.version {
        SetAttempt(token, Superseded);
      } else {
        SetAttempt(token, Locked(source, DeleteDense));
      }
    }

    /** The next call to a store. A call that fails may have done any part of its work. */
    method CallStore(token: nat) returns (ok: bool, ghost e: Event)
      requires Enabled(S(), StoreOk(token))
      modifies this`dense, this`text, this`attempts
      ensures e == (if ok then StoreOk(token) else StoreFail(token, if e.StoreFail? then e.part else {}))
      ensures old(Enabled(S(), e)) && S() == Apply(cfg, old(S()), e)
      ensures token in attempts
      ensures var phase := old(attempts[token].phase);
              attempts[token].phase == if ok then phase.(step := NextStep(phase.source, phase.step)) else Failed
      ensures var id, phase := old(attempts[token].memory), old(attempts[token].phase);
              && OthersKept(old(dense), dense, id) && OthersKept(old(text), text, id)
              && (phase.step.DeleteDense? || phase.step.UpsertDense? ==> text == old(text))
              && (phase.step.DeleteText? || phase.step.IndexText? ==> dense == old(dense))
              && (ok ==>
                    match phase.step
                    case DeleteDense => Emptied(dense, id)
                    case DeleteText => Emptied(text, id)
                    case UpsertDense => Wrote(cfg, old(dense), dense, id, phase.source)
                    case IndexText => Wrote(cfg, old(text), text, id, phase.source)
                    case Finish => true)
    {
      hide Whole, DocumentIn, Document, Part, Without, OthersKept, Emptied, Wrote;
      ok := *;
      var part: set<Entry> := *;
      WholeCallMeans(cfg, S(), attempts[token].memory, attempts[token].phase.source);
      var a := attempts[token];
      var source, step := a.phase.source, a.phase.step;
      if ok {
        part := Whole(cfg, S(), a.memory, source);
      }
      e := if ok then StoreOk(token) else StoreFail(token, part);
      CallMeans(cfg, dense, a.memory, source, part);
      CallMeans(cfg, text, a.memory, source, part);
      match step {
        case DeleteDense => dense := Without(dense, DocumentIn(dense, a.memory).Keys * part);
        case DeleteText => text := Without(text, DocumentIn(text, a.memory).Keys * part);
        case UpsertDense => dense := dense + Part(Document(cfg, a.memory, source), part);
        case IndexText => text := text + Part(Document(cfg, a.memory, source), part);
      }
      SetAttempt(token, if ok then a.phase.(step := NextStep(source, step)) else Failed);
    }

    /** The attempt's transaction is rolled back; what its store calls did stays done. */
    method RollBack(token: nat)
      requires Enabled(S(), Fail(token))
      modifies this`attempts
      ensures S() == Apply(cfg, old(S()), Fail(token)) && token in attempts && attempts[token].phase == Failed
    {
      SetAttempt(token, Failed);
    }

    /** Completes the task if its lease is still held, and commits. */
    method CompleteTask(token: nat)
      requires Enabled(S(), Complete(token))
      modifies this`tasks, this`attempts
      ensures S() == Apply(cfg, old(S()), Complete(token)) && token !in attempts
      ensures var t := old(attempts[token].task);
              tasks == if t in old(tasks) && old(tasks)[t].status.Leased? && old(tasks)[t].status.token == token
                       then old(tasks)[t := old(tasks)[t].(status := Completed)] else old(tasks)
    {
      var t := attempts[token].task;
      if t in tasks && tasks[t].status.Leased? && tasks[t].status.token == token {
        tasks := tasks[t := tasks[t].(status := Completed)];
      }
      attempts := attempts - {token};
    }

    /** Puts the task back into the queue with a delay if its lease is still held. */
    method RetryTask(token: nat)
      requires Enabled(S(), Retry(token))
      modifies this`tasks, this`attempts
      ensures S() == Apply(cfg, old(S()), Retry(token)) && token !in attempts
      ensures var a := old(attempts[token]);
              var owns := a.task in old(tasks) && old(tasks)[a.task].status.Leased? && old(tasks)[a.task].status.token == token;
              && (!owns ==> tasks == old(tasks))
              && (owns ==> tasks == old(tasks)[a.task := old(tasks)[a.task].(status := Requested, availableAt := now + Delay(cfg, a.count))])
    {
      var a := attempts[token];
      if a.task in tasks && tasks[a.task].status.Leased? && tasks[a.task].status.token == token {
        tasks := tasks[a.task := tasks[a.task].(status := Requested, availableAt := now + Delay(cfg, a.count))];
      }
      attempts := attempts - {token};
    }

    /******* The loop *******/

    method Become(s: State)
      modifies this
      ensures S() == s
    {
      now, dense, text, attempts := s.now, s.dense, s.text, s.attempts;
      memories, tasks, past, claims := s.db.memories, s.db.tasks, s.db.past, s.db.claims;
    }

    /** Any events of the other parties: clock, users and workers, but no step of the attempts in `own`. */
    method Interfere(own: set<nat>, ghost start: State)
      requires own <= claims.Keys && Since(cfg, start, S())
      modifies this
      ensures Since(cfg, start, S()) && Undisturbed(old(S()), S(), own)
    {
      hide Enabled, Apply, Since, EventOf;
      var schedule: seq<Event> := *;
      for i := 0 to |schedule|
        invariant Since(cfg, start, S()) && Undisturbed(old(S()), S(), own)
      {
        var e := schedule[i];
        if Enabled(S(), e) && !EventOf(e, own) {
          OthersDisturbNone(cfg, S(), e, own);
          OneMore(cfg, start, S(), e);
          Become(Apply(cfg, S(), e));
        }
      }
    }

    /** The process ends, or cannot reach the database, without writing the back-off. */
    method Abandon(token: nat)
      requires token in attempts
      modifies this`attempts
      ensures S() == Apply(cfg, old(S()), Crash(token)) && token !in attempts
    {
      attempts := attempts - {token};
    }

    /** An exception in the pass: back off in a new transaction, which may fail as well. */
    method BackOff(token: nat, counted: bool, ghost start: State) returns (r: Outcome)
      requires Since(cfg, start, S()) && token in claims && token in attempts && attempts[token].phase == Failed
      modifies this
      ensures Since(cfg, start, S()) && token !in attempts && r == Outcome(counted, false, r.alive)
    {
      hide Since, Apply;
      Interfere({token}, start);
      var down := *;
      if down {
        OneMore(cfg, start, S(), Crash(token));
        Abandon(token);
        return Outcome(counted, false, false);
      }
      OneMore(cfg, start, S(), Retry(token));
      RetryTask(token);
      return Outcome(counted, false, true);
    }

    method RollBackAndRetry(token: nat, counted: bool, ghost start: State) returns (r: Outcome)
      requires Since(cfg, start, S()) && token in claims && token in attempts && !attempts[token].phase.Failed?
      modifies this
      ensures Since(cfg, start, S()) && token !in attempts && r == Outcome(counted, false, r.alive)
    {
      hide Since, Apply;
      OneMore(cfg, start, S(), Fail(token));
      RollBack(token);
      r := BackOff(token, counted, start);
    }

    /**
     Completes the task, counts it, and commits: a commit that fails comes after the count.
     Without its session the worker can do neither.
     */
    method Finalize(token: nat, ghost start: State) returns (r: Outcome)
      requires Since(cfg, start, S()) && token in claims && token in attempts
      requires attempts[token].phase.Superseded? || (attempts[token].phase.Working() && attempts[token].phase.step == Finish)
      modifies this
      ensures Since(cfg, start, S()) && token !in attempts && (r.done ==> r.counted && r.alive)
    {
      hide Since, Apply;
      Interfere({token}, start);
      var updated, committed := *, *;
      if !updated || !committed || attempts[token].phase.Adrift? {
        r := RollBackAndRetry(token, updated, start);
        return;
      }
      OneMore(cfg, start, S(), Complete(token));
      CompleteTask(token);
      return Outcome(true, true, true);
    }

    /** One store call of the pass, after any events of the others. */
    method Call(token: nat, ghost start: State) returns (ok: bool)
      requires Since(cfg, start, S()) && token in claims && InStoreCall(S(), token)
      modifies this
      ensures Since(cfg, start, S()) && token in claims && token in attempts
      ensures var phase := old(attempts[token].phase);
              if ok then At(attempts[token].phase, phase.source, NextStep(phase.source, phase.step)) else attempts[token].phase == Failed
    {
      hide Since, Apply, NextStep;
      Interfere({token}, start);
      ghost var s := S();
      ghost var e;
      ok, e := CallStore(token);
      OneMore(cfg, start, s, e);
    }

    /** Deletes the document in both stores. */
    method DeleteDocument(token: nat, ghost start: State) returns (ok: bool)
      requires Since(cfg, start, S()) && token in claims && token in attempts
      requires attempts[token].phase.Working() && attempts[token].phase.step == DeleteDense
      modifies this
      ensures Since(cfg, start, S()) && token in claims && token in attempts
      ensures var source := old(attempts[token].phase.source);
              if ok then At(attempts[token].phase, source, if source.deleted then Finish else UpsertDense)
              else attempts[token].phase == Failed
    {
      hide Since;
      ok := Call(token, start);
      if ok {
        ok := Call(token, start);
      }
    }

    /** Writes the document to both stores. */
    method Project(token: nat, ghost start: State) returns (ok: bool)
      requires Since(cfg, start, S()) && token in claims && token in attempts
      requires attempts[token].phase.Working() && attempts[token].phase.step == UpsertDense
      modifies this
      ensures Since(cfg, start, S()) && token in claims && token in attempts
      ensures if ok then At(attempts[token].phase, old(attempts[token].phase.source), Finish) else attempts[token].phase == Failed
    {
      hide Since;
      ok := Call(token, start);
      if ok {
        ok := Call(token, start);
      }
    }

    /** The pass over one claimed task. */
    method RunTask(token: nat, ghost start: State) returns (r: Outcome)
      requires Since(cfg, start, S()) && token in claims && token in attempts && attempts[token].phase.Claimed?
      modifies this
      ensures Since(cfg, start, S()) && token !in attempts && (r.done ==> r.counted && r.alive)
    {
      hide Since, Apply, RowLocked;
      Interfere({token}, start);
      var down := *;
      if down || RowLocked(S(), attempts[token].memory) {
        r := RollBackAndRetry(token, false, start);
        return;
      }
      OneMore(cfg, start, S(), Lock(token));
      LockSource(token);
      if attempts[token].phase.Failed? {
        r := BackOff(token, false, start);
        return;
      }
      if attempts[token].phase.Superseded? {
        r := Finalize(token, start);
        return;
      }
      var source := attempts[token].phase.source;
      var ok := DeleteDocument(token, start);
      if ok && !source.deleted {
        ok := Project(token, start);
      }
      if !ok {
        r := BackOff(token, false, start);
        return;
      }
      r := Finalize(token, start);
    }

    /** One round of the loop: claim a task and run it, unless there is none or no connection. */
    method ClaimAndRun(ghost start: State, ghost before: set<nat>)
      returns (claimed: bool, r: Outcome, ghost mine: set<nat>, ghost last: State)
      requires Since(cfg, start, S()) && OwnOver(start, S(), before)
      modifies this
      ensures Since(cfg, start, S()) && OwnOver(start, S(), mine)
      ensures |mine| == |before| + if claimed then 1 else 0
      ensures (!claimed ==> !r.counted && !r.done) && (r.done ==> r.counted && r.alive)
      ensures !claimed && r.alive ==> Since(cfg, start, last) && NothingLeft(cfg, last, S())
    {
      hide Reaches, Apply, Enabled, OwnOver, Undisturbed, NothingLeft;
      mine := before;
      claimed, r := false, Outcome(false, false, true);
      ghost var was := S();
      Interfere({}, start);
      last := S();
      OwnOverKeeps(start, was, last, mine);
      var down := *;
      if down {
        return false, Outcome(false, false, false), mine, last;
      }
      var task, token := ClaimNext(start);
      if task.None? {
        OwnOverSame(start, last, S(), mine);
        return;
      }
      ghost var m := S();
      SinceSelf(cfg, m);
      r := RunTask(token, m);
      SinceTrans(cfg, start, m, S());
      OwnOverAdds(start, last, m, S(), mine, token);
      claimed, mine := true, mine + {token};
    }

    /** Draws a token that was never issued and claims a task with it, if there is one. */
    method ClaimNext(ghost start: State) returns (task: Option<nat>, token: nat)
      requires Since(cfg, start, S())
      modifies this
      ensures Since(cfg, start, S()) && token !in old(claims)
      ensures task.None? ==> NothingLeft(cfg, old(S()), S()) && attempts == old(attempts) && claims == old(claims)
      ensures task.Some? ==>
                && attempts.Keys == old(attempts).Keys + {token} && claims.Keys == old(claims).Keys + {token}
                && attempts[token].phase.Claimed?
    {
      hide Since, Apply, Enabled;
      assert Above(claims.Keys) !in claims;
      token :| token !in claims;
      ghost var s := S();
      task := ClaimTask(token);
      if task.None? {
        RecoveryOpensNone(cfg, s);
        OneMore(cfg, start, s, Recover);
      } else {
        OneMore(cfg, start, s, Claim(token, task.value));
        ClaimOpensOne(cfg, s, token, task.value);
      }
    }

    /**
     Drains at most `limit` tasks. Whatever the others do between its steps and wherever it
     fails, the whole system makes a run of the protocol, the worker leaves none of its own
     attempts (with the tokens in `mine`) open, and the number returned is the number of its
     claims, or one less when the last pass failed before its task was counted. It stops before
     `limit` only without a task to claim or a connection, or with a failed pass.
     */
    method Drain(limit: int) returns (r: Result<nat, Error>, ghost mine: set<nat>, ghost why: Stop)
      modifies this
      ensures r == Failure(InvalidArgument) <==> limit < 1
      ensures limit < 1 ==> S() == old(S())
      ensures Reaches(cfg, old(S()), S()) && (old(Inv(cfg, S())) ==> Inv(cfg, S()))
      ensures mine !! old(claims).Keys && mine <= claims.Keys && mine !! attempts.Keys
      ensures |mine| <= (if limit < 1 then 0 else limit)
      ensures r.Success? ==> r.value <= |mine| <= r.value + 1
      ensures match why
              case Refused => limit < 1
              case Exhausted => r == Success(limit) && |mine| == limit
              case NoTask(last) => r == Success(|mine|) && Reaches(cfg, old(S()), last) && NothingLeft(cfg, last, S())
              case NoConnection => r == Failure(Unavailable)
              case PassFailed => mine != {}
    {
      mine, why := {}, Refused;
      ghost var start := S();
      SinceSelf(cfg, start);
      if limit < 1 {
        SinceKeepsInv(cfg, start, S());
        return Failure(InvalidArgument), mine, why;
      }
      hide Since, Apply, Inv, Reaches, NothingLeft;
      var completed := 0;
      r, why := Success(completed), Exhausted;
      for i := 0 to limit
        invariant Since(cfg, start, S()) && OwnOver(start, S(), mine) && |mine| == i == completed && r == Success(completed)
        invariant why == Exhausted
      {
        var claimed, outcome;
        ghost var last;
        claimed, outcome, mine, last := ClaimAndRun(start, mine);
        if outcome.counted {
          completed := completed + 1;
        }
        r := if outcome.alive then Success(completed) else Failure(Unavailable);
        if !outcome.done {
          why := if claimed then PassFailed else if outcome.alive then NoTask(last) else NoConnection;
          if !claimed && outcome.alive {
            SinceKeepsInv(cfg, start, last);
          }
          break;
        }
      }
      SinceKeepsInv(cfg, start, S());
    }
  }
}
