/**
 Whole-run results on the task table, and a concrete run in which a late worker empties the index.
 */
module ProjectionRuns {
  import opened Projection
  import opened ProjectionSafety
  import opened ProjectionAgreement

  lemma ReachableInv(cfg: Config, s: State)
    requires Reaches(cfg, EMPTY, s)
    ensures Inv(cfg, s)
  {
    var events :| IsRun(cfg, EMPTY, events) && After(cfg, EMPTY, events) == s;
    InitInv(cfg);
    hide Inv, IsRun, After;
    RunKeepsInv(cfg, EMPTY, events);
  }

  /**
   Main result on whole runs: after any run in which no store call is made after its lease has
   expired or its row lock was lost, each memory has an uncompleted task at its current version
   or is shown by both stores; and once all tasks are completed, both stores are the projection
   of the table. Failures at any sub-step, crashes and concurrent mutations are among the events.
   */
  lemma RespectfulRunsAgree(cfg: Config, events: seq<Event>)
    requires IsRun(cfg, EMPTY, events) && Respectful(cfg, EMPTY, events)
    ensures var s := After(cfg, EMPTY, events);
            && (forall id :: id in s.db.memories ==> Pending(s.db, id) || Shown(cfg, s, id))
            && (AllCompleted(s) ==> s.dense == Projected(cfg, s.db.memories) && s.text == Projected(cfg, s.db.memories))
  {
    InitInv(cfg);
    assert AgreeSafely(cfg, EMPTY);
    hide Inv, IsRun, After, Respectful, Projected, Pending, Shown, StepsOk;
    RunKeepsAgree(cfg, EMPTY, events);
    RunKeepsInv(cfg, EMPTY, events);
    if AllCompleted(After(cfg, EMPTY, events)) {
      QuiescentIndex(cfg, After(cfg, EMPTY, events));
    }
  }

  predicate AllCompleted(s: State) {
    forall t :: t in s.db.tasks ==> s.db.tasks[t].status.Completed?
  }

  /******* The task table *******/

  /** In every reachable state each version of each memory has exactly one task, and no task is ahead of its memory. */
  lemma OneTaskPerVersion(cfg: Config, s: State, id: string, v: nat)
    requires Reaches(cfg, EMPTY, s) && id in s.db.memories
    ensures 1 <= v <= s.db.memories[id].version <==> exists t :: IsTaskFor(s.db.tasks, t, id, v)
    ensures forall t, u :: IsTaskFor(s.db.tasks, t, id, v) && IsTaskFor(s.db.tasks, u, id, v) ==> t == u
  {
    ReachableInv(cfg, s);
    hide Reaches, WorkersOk, Genuine, CountsOk;
    if 1 <= v <= s.db.memories[id].version {
      assert (id, v) in s.db.past;
    }
  }

  /** The worker's error that a source is not available at the requested version is unreachable. */
  lemma SourceAlwaysAvailable(cfg: Config, s: State, token: nat)
    requires Reaches(cfg, EMPTY, s) && Enabled(s, Lock(token))
    ensures AfterLock(s, s.attempts[token]) != Failed
  {
    ReachableInv(cfg, s);
    hide Reaches, Genuine, SourcesOk, LocksOk, LeasesOk, VersionsOk, CountsOk, TasksTotal, TasksUnique;
    assert s.attempts[token].task in s.db.tasks;
  }

  /** The attempt counter of every task equals the number of claims ever made on it. */
  lemma AttemptsCountClaims(cfg: Config, s: State, t: nat)
    requires Reaches(cfg, EMPTY, s) && t in s.db.tasks
    ensures s.db.tasks[t].attempts == |ClaimsOf(s.db.claims, t)|
  {
    ReachableInv(cfg, s);
  }

  /** A completed task never changes again. */
  lemma CompletedIsFinal(cfg: Config, s: State, e: Event, t: nat)
    requires Enabled(s, e) && t in s.db.tasks && s.db.tasks[t].status.Completed?
    ensures t in Apply(cfg, s, e).db.tasks && Apply(cfg, s, e).db.tasks[t] == s.db.tasks[t]
  {
    hide StoreEffect, Whole, AfterLock, NextStep;
  }

  lemma {:induction false} CompletedIsFinalInRuns(cfg: Config, s: State, events: seq<Event>, t: nat)
    requires IsRun(cfg, s, events) && t in s.db.tasks && s.db.tasks[t].status.Completed?
    ensures t in After(cfg, s, events).db.tasks && After(cfg, s, events).db.tasks[t] == s.db.tasks[t]
    decreases |events|
  {
    hide Enabled, Apply;
    if events != [] {
      CompletedIsFinal(cfg, s, events[0], t);
      CompletedIsFinalInRuns(cfg, Apply(cfg, s, events[0]), events[1..], t);
    }
  }

  /** The token was issued and no task is leased to it any more. */
  ghost predicate Stale(db: Tables, token: nat) {
    && token in db.claims
    && forall t :: t in db.tasks && db.tasks[t].status.Leased? ==> db.tasks[t].status.token != token
  }

  predicate TokenOf(e: Event, token: nat) {
    IsWorkerEvent(e) && e.token == token
  }

  /** A superseded lease token stays superseded. */
  lemma StaleStaysStale(cfg: Config, s: State, e: Event, token: nat)
    requires Stale(s.db, token) && Enabled(s, e)
    ensures Stale(Apply(cfg, s, e).db, token)
  {
    hide StoreEffect, Whole, AfterLock, NextStep, RowLocked, HasTravelProfile;
  }

  /** An attempt whose token is superseded changes nothing in the database, whatever it does. */
  lemma StaleChangesNothing(cfg: Config, s: State, e: Event, token: nat)
    requires Stale(s.db, token) && Enabled(s, e) && TokenOf(e, token)
    ensures Apply(cfg, s, e).db == s.db
  {
    hide StoreEffect, Whole, AfterLock, NextStep, RowLocked, HasTravelProfile;
  }

  /** No worker event of one attempt takes the task of another attempt away while the lease of that one lasts. */
  lemma LeaseProtects(cfg: Config, s: State, e: Event, token: nat)
    requires Reaches(cfg, EMPTY, s) && Enabled(s, e)
    requires token in s.attempts && token in Apply(cfg, s, e).attempts
    requires Apply(cfg, s, e).now < s.attempts[token].expires
    ensures Owns(Apply(cfg, s, e), token)
  {
    ReachableInv(cfg, s);
    KeepsInv(cfg, s, e);
    ExpiryFixed(cfg, s, e, token);
    hide Apply, Enabled, Reaches, TablesOk, Genuine, SourcesOk, LocksOk;
  }

  lemma ExpiryFixed(cfg: Config, s: State, e: Event, token: nat)
    requires AttemptsOk(s) && Enabled(s, e) && token in s.attempts && token in Apply(cfg, s, e).attempts
    ensures Apply(cfg, s, e).attempts[token].expires == s.attempts[token].expires
  {
    if IsWorkerEvent(e) {
      WorkerTouchesOne(cfg, s, e);
    }
  }

  /** The back-off doubles from one second on until it reaches its cap, and stays there. */
  lemma BackOffDoubles(cfg: Config, count: nat)
    requires count >= 1 && cfg.maxDelay >= 1
    ensures Delay(cfg, 1) == 1
    ensures Delay(cfg, count + 1) == if 2 * Delay(cfg, count) < cfg.maxDelay then 2 * Delay(cfg, count) else cfg.maxDelay
  {
    assert Pow2(count) == 2 * Pow2(count - 1);
    assert Pow2(0) == 1;
  }

  /******* A late worker *******/

  const LATE_ROW := Row("user", Episodic, "key", "value", false, 1)

  /** Two attempts on the only task: the first has outlived its lease, the second owns it. */
  ghost predicate TwoAttempts(s: State) {
    && s.db.memories == map["memory" := LATE_ROW]
    && s.db.tasks.Keys == {0} && IsTaskFor(s.db.tasks, 0, "memory", 1)
    && s.db.tasks[0].status.Leased? && s.db.tasks[0].status.token == 2
    && s.attempts.Keys == {1, 2}
    && s.attempts[1].task == 0 && s.attempts[1].memory == "memory" && s.attempts[1].user == "user"
    && s.attempts[1].version == 1 && s.attempts[1].phase == Claimed
    && s.attempts[2].task == 0 && s.attempts[2].memory == "memory" && s.attempts[2].user == "user"
    && s.attempts[2].version == 1 && s.attempts[2].phase == Claimed
  }

  /** The first attempt has let its lease run out and the task is back in the queue. */
  ghost predicate OneExpired(s: State) {
    && s.db.memories == map["memory" := LATE_ROW]
    && s.db.tasks.Keys == {0} && IsTaskFor(s.db.tasks, 0, "memory", 1) && s.db.tasks[0].user == "user"
    && s.db.tasks[0].status.Requested? && s.db.tasks[0].availableAt <= s.now
    && s.db.claims.Keys == {1} && s.attempts.Keys == {1}
    && s.attempts[1].task == 0 && s.attempts[1].memory == "memory" && s.attempts[1].user == "user"
    && s.attempts[1].version == 1 && s.attempts[1].phase == Claimed
  }

  lemma ReachOneClaimed(cfg: Config) returns (s: State)
    ensures Reaches(cfg, EMPTY, s) && AgreeSafely(cfg, s) && OneClaimed(s) && s.attempts[1].expires <= s.now + cfg.lease
  {
    hide StoreEffect, Whole, AfterLock, NextStep, Reaches, Inv;
    ReachesSelf(cfg, EMPTY);
    assert AgreeSafely(cfg, EMPTY);
    hide AgreeSafely;
    var s1 := Forward(cfg, EMPTY, Create("memory", "user", Episodic, "key", "value", 0));
    assert s1.db.tasks == map[0 := Task("memory", "user", 1, Requested, 0, s1.now)];
    s := Forward(cfg, s1, Claim(1, 0));
    assert s.db.tasks.Keys == {0};
  }

  /** The only task is claimed by the only attempt. */
  ghost predicate OneClaimed(s: State) {
    && s.db.memories == map["memory" := LATE_ROW]
    && s.db.tasks.Keys == {0} && IsTaskFor(s.db.tasks, 0, "memory", 1) && s.db.tasks[0].user == "user"
    && s.db.claims.Keys == {1} && s.attempts.Keys == {1}
    && s.attempts[1].task == 0 && s.attempts[1].memory == "memory" && s.attempts[1].user == "user"
    && s.attempts[1].version == 1 && s.attempts[1].phase == Claimed
    && s.db.tasks[0].status == Leased(1, s.attempts[1].expires)
  }

  lemma ReachOneExpired(cfg: Config) returns (s: State)
    ensures Reaches(cfg, EMPTY, s) && OneExpired(s) && AgreeSafely(cfg, s)
  {
    hide StoreEffect, Whole, AfterLock, NextStep, Reaches, Inv, AgreeSafely;
    var s2 := ReachOneClaimed(cfg);
    var s3 := Forward(cfg, s2, Tick(cfg.lease));
    s := Forward(cfg, s3, Recover);
  }

  lemma ReachTwoAttempts(cfg: Config) returns (s: State)
    ensures Reaches(cfg, EMPTY, s) && TwoAttempts(s) && AgreeSafely(cfg, s)
  {
    hide StoreEffect, Whole, AfterLock, NextStep, Reaches, Inv, AgreeSafely;
    var m := ReachOneExpired(cfg);
    s := Forward(cfg, m, Claim(2, 0));
  }

  ghost predicate SecondAt(s: State, first: Attempt, step: Step) {
    && s.db.memories == map["memory" := LATE_ROW]
    && s.db.tasks.Keys == {0} && IsTaskFor(s.db.tasks, 0, "memory", 1)
    && s.db.tasks[0].status.Leased? && s.db.tasks[0].status.token == 2
    && s.attempts.Keys == {1, 2} && s.attempts[1] == first && first.phase == Claimed && first.memory == "memory"
    && s.attempts[2].phase == Locked(LATE_ROW, step) && s.attempts[2].task == 0 && s.attempts[2].memory == "memory"
  }

  lemma SecondLocks(cfg: Config, s: State) returns (n: State)
    requires Reaches(cfg, EMPTY, s) && AgreeSafely(cfg, s) && TwoAttempts(s)
    ensures Reaches(cfg, EMPTY, n) && AgreeSafely(cfg, n) && SecondAt(n, s.attempts[1], DeleteDense)
  {
    hide StoreEffect, Whole, Reaches, Inv, AgreeSafely;
    n := Forward(cfg, s, Lock(2));
  }

  lemma SecondCalls(cfg: Config, s: State, first: Attempt, step: Step) returns (n: State)
    requires Reaches(cfg, EMPTY, s) && AgreeSafely(cfg, s) && SecondAt(s, first, step) && step != Finish
    ensures Reaches(cfg, EMPTY, n) && AgreeSafely(cfg, n) && SecondAt(n, first, NextStep(LATE_ROW, step))
  {
    hide StoreEffect, Whole, Reaches, Inv, AgreeSafely;
    n := Forward(cfg, s, StoreOk(2));
  }

  lemma SecondFinishes(cfg: Config, s: State, first: Attempt) returns (n: State)
    requires Reaches(cfg, EMPTY, s) && AgreeSafely(cfg, s) && SecondAt(s, first, Finish)
    ensures Reaches(cfg, EMPTY, n) && AgreeSafely(cfg, n) && AllCompleted(n)
    ensures n.db.memories == map["memory" := LATE_ROW] && n.attempts == map[1 := first]
  {
    hide StoreEffect, Whole, Reaches, Inv, AgreeSafely;
    n := Forward(cfg, s, Complete(2));
    assert n.attempts.Keys == {1};
  }

  /** The second attempt does all its work and completes the task. */
  lemma SecondCompletes(cfg: Config, s: State) returns (n: State)
    requires Reaches(cfg, EMPTY, s) && AgreeSafely(cfg, s) && TwoAttempts(s)
    ensures Reaches(cfg, EMPTY, n) && AgreeSafely(cfg, n) && AllCompleted(n)
    ensures n.db.memories == s.db.memories && n.attempts == map[1 := s.attempts[1]]
  {
    hide Reaches, AgreeSafely, SecondAt;
    var first := s.attempts[1];
    n := SecondLocks(cfg, s);
    n := SecondCalls(cfg, n, first, DeleteDense);
    n := SecondCalls(cfg, n, first, DeleteText);
    n := SecondCalls(cfg, n, first, UpsertDense);
    n := SecondCalls(cfg, n, first, IndexText);
    n := SecondFinishes(cfg, n, first);
  }

  /**
   The agreement needs its lease hypothesis: a reachable state in which every task is
   completed and no worker is active, but the index does not show a live memory. The first
   attempt outlived its lease, deleted the document behind the completed task and crashed.
   */
  lemma LateWorkerEmptiesIndex(cfg: Config)
    requires cfg.render("key", "value") != []
    ensures exists s :: Reaches(cfg, EMPTY, s) && AllCompleted(s) && s.attempts == map[] && !Agree(cfg, s)
  {
    hide StoreEffect, Whole, Reaches, Inv, AgreeSafely, Document;
    var s1 := ReachTwoAttempts(cfg);
    var s2 := SecondCompletes(cfg, s1);
    var s3 := Forward(cfg, s2, Lock(1));
    assert s3.attempts[1].phase == Locked(LATE_ROW, DeleteDense);
    AllCompletedNothingPending(s3, "memory");
    SomethingToShow(cfg, LATE_ROW);
    CallBreaks(cfg, s3, 1, "memory", LATE_ROW);
    var s4 := Apply(cfg, s3, StoreOk(1));
    ReachesStep(cfg, EMPTY, s3, StoreOk(1));
    StoreEventKeepsTables(cfg, s3, StoreOk(1));
    var s5 := Apply(cfg, s4, Crash(1));
    ReachesStep(cfg, EMPTY, s4, Crash(1));
    SameStoresAgree(cfg, s4, s5);
    assert s5.attempts == map[];
  }

  lemma AllCompletedNothingPending(s: State, id: string)
    requires id in s.db.memories && AllCompleted(s)
    ensures !Pending(s.db, id)
  {
  }

  /** With nothing pending, a successful call that has something to delete, or another version to write, breaks the agreement. */
  lemma CallBreaks(cfg: Config, s: State, token: nat, id: string, row: Row)
    requires Reaches(cfg, EMPTY, s) && AgreeSafely(cfg, s) && InStoreCall(s, token)
    requires id == s.attempts[token].memory && id in s.db.memories && s.db.memories[id] == row && !Pending(s.db, id)
    requires var phase := s.attempts[token].phase;
             if Deletes(phase.step) then Document(cfg, id, row) != map[]
             else phase.source != row && Document(cfg, id, phase.source) != map[]
    ensures !Agree(cfg, Apply(cfg, s, StoreOk(token)))
  {
    assert Agree(cfg, s) && Enabled(s, StoreOk(token));
    hide *;
    ReachableInv(cfg, s);
    AgreeHere(cfg, s, id);
    StoreCallKeepsAgreeExactly(cfg, s, StoreOk(token), id);
    WholeIsHarmless(cfg, s, StoreOk(token), id);
  }

  lemma SameStoresAgree(cfg: Config, s: State, n: State)
    requires s.db == n.db && s.dense == n.dense && s.text == n.text
    ensures Agree(cfg, s) <==> Agree(cfg, n)
  {
  }

  lemma SomethingToShow(cfg: Config, row: Row)
    requires cfg.render(row.key, row.value) != [] && !row.deleted
    ensures Document(cfg, "memory", row) != map[]
  {
    var e := Chunk(cfg, "memory", row, 0);
    assert e in Entries(cfg, "memory", row);
    assert e in Document(cfg, "memory", row);
  }

  /** One event further along a reachable run in which no store call is late or without its lock. */
  lemma Forward(cfg: Config, s: State, e: Event) returns (n: State)
    requires Reaches(cfg, EMPTY, s) && AgreeSafely(cfg, s) && Enabled(s, e) && Owned(s, e) && UnderLock(s, e)
    ensures n == Apply(cfg, s, e) && Reaches(cfg, EMPTY, n) && AgreeSafely(cfg, n)
  {
    hide Apply, Enabled, AgreeSafely, Owned, UnderLock;
    n := Apply(cfg, s, e);
    ReachableInv(cfg, s);
    KeepsAgree(cfg, s, e);
    ReachesStep(cfg, EMPTY, s, e);
  }

  /******* A worker without its lock *******/

  const OLD_ROW := Row("user", Episodic, "key", "old", false, 1)
  const NEW_ROW := Row("user", Episodic, "key", "new", false, 2)

  /** Whether the attempt works on the task of the version of its row, under a lease that still lasts. */
  ghost predicate WorksOn(s: State, token: nat, task: nat, row: Row, phase: Phase) {
    && token in s.attempts && token in s.db.claims
    && s.attempts[token].task == task && s.attempts[token].memory == "memory" && s.attempts[token].user == "user"
    && s.attempts[token].version == row.version && s.attempts[token].phase == phase && s.now < s.attempts[token].expires
    && IsTaskFor(s.db.tasks, task, "memory", row.version)
    && s.db.tasks[task].status.Leased? && s.db.tasks[task].status.token == token
  }

  predicate FirstVersion(row: Row) {
    row.user == "user" && !row.deleted && row.version == 1
  }

  /** The only memory is new, and a worker has claimed its task. */
  lemma FirstClaimed(cfg: Config, row: Row) returns (s: State)
    requires cfg.lease > 0 && FirstVersion(row)
    ensures Reaches(cfg, EMPTY, s) && AgreeSafely(cfg, s)
    ensures s.db.memories == map["memory" := row] && s.db.tasks.Keys == {0} && s.db.claims.Keys == {1}
    ensures s.attempts.Keys == {1} && WorksOn(s, 1, 0, row, Claimed)
  {
    hide StoreEffect, Whole, NextStep, Reaches, Inv;
    ReachesSelf(cfg, EMPTY);
    assert AgreeSafely(cfg, EMPTY);
    hide AgreeSafely;
    var s1 := Forward(cfg, EMPTY, Create("memory", "user", row.kind, row.key, row.value, 0));
    assert s1.db.tasks == map[0 := Task("memory", "user", 1, Requested, 0, s1.now)];
    s := Forward(cfg, s1, Claim(1, 0));
    assert s.db.tasks.Keys == {0};
  }

  /** The next store call of a locked attempt, with everything else as it was. */
  lemma NextCall(cfg: Config, s: State, token: nat, task: nat, row: Row, step: Step) returns (n: State)
    requires Reaches(cfg, EMPTY, s) && AgreeSafely(cfg, s) && WorksOn(s, token, task, row, Locked(row, step)) && step != Finish
    ensures Reaches(cfg, EMPTY, n) && AgreeSafely(cfg, n) && WorksOn(n, token, task, row, Locked(row, NextStep(row, step)))
    ensures n.db == s.db && n.now == s.now && n.attempts.Keys == s.attempts.Keys
    ensures forall k :: k in s.attempts && k != token ==> n.attempts[k] == s.attempts[k]
  {
    hide Reaches, Inv, AgreeSafely;
    StoreEventIs(cfg, s, StoreOk(token));
    hide Apply, StoreEffect, Whole, NextStep;
    n := Forward(cfg, s, StoreOk(token));
  }

  /** The worker has locked the row and emptied both stores. */
  lemma FirstEmptied(cfg: Config, row: Row) returns (s: State)
    requires cfg.lease > 0 && FirstVersion(row)
    ensures Reaches(cfg, EMPTY, s) && AgreeSafely(cfg, s)
    ensures s.db.memories == map["memory" := row] && s.db.tasks.Keys == {0} && s.db.claims.Keys == {1}
    ensures s.attempts.Keys == {1} && WorksOn(s, 1, 0, row, Locked(row, UpsertDense))
  {
    hide StoreEffect, Whole, Reaches, Inv, AgreeSafely;
    var s1 := FirstClaimed(cfg, row);
    var s2 := Forward(cfg, s1, Lock(1));
    assert WorksOn(s2, 1, 0, row, Locked(row, DeleteDense)) && s2.db == s1.db && s2.attempts.Keys == {1};
    var s3 := NextCall(cfg, s2, 1, 0, row, DeleteDense);
    s := NextCall(cfg, s3, 1, 0, row, DeleteText);
  }

  /** A reachable state in which the dense store holds the document of the only memory. */
  lemma FirstIndexed(cfg: Config, row: Row) returns (s: State)
    requires cfg.lease > 0 && FirstVersion(row)
    ensures Reaches(cfg, EMPTY, s) && s.db.memories == map["memory" := row]
    ensures DocumentIn(s.dense, "memory") == Document(cfg, "memory", row)
  {
    hide StoreEffect, Whole, Reaches, Inv, AgreeSafely, DocumentIn, Document;
    var s1 := FirstEmptied(cfg, row);
    s := NextCall(cfg, s1, 1, 0, row, UpsertDense);
    SafelySteps(cfg, s);
  }

  lemma OldAdrift(cfg: Config) returns (s: State)
    requires cfg.lease > 0
    ensures Reaches(cfg, EMPTY, s) && AgreeSafely(cfg, s)
    ensures s.db.memories == map["memory" := OLD_ROW] && s.db.tasks.Keys == {0} && s.db.claims.Keys == {1}
    ensures s.attempts.Keys == {1} && WorksOn(s, 1, 0, OLD_ROW, Adrift(OLD_ROW, UpsertDense))
  {
    hide StoreEffect, Whole, Reaches, Inv, AgreeSafely;
    var s1 := FirstEmptied(cfg, OLD_ROW);
    s := Forward(cfg, s1, Disconnect(1));
  }

  /** The row is free, so it is updated, and another worker claims and locks the new version. */
  lemma NewLocked(cfg: Config) returns (s: State)
    requires cfg.lease > 0
    ensures Reaches(cfg, EMPTY, s) && AgreeSafely(cfg, s) && s.db.memories == map["memory" := NEW_ROW]
    ensures s.attempts.Keys == {1, 2} && s.db.tasks.Keys == {0, 1}
    ensures WorksOn(s, 1, 0, OLD_ROW, Adrift(OLD_ROW, UpsertDense)) && WorksOn(s, 2, 1, NEW_ROW, Locked(NEW_ROW, DeleteDense))
  {
    hide StoreEffect, Whole, NextStep, Reaches, Inv, AgreeSafely;
    var s1 := OldAdrift(cfg);
    var s2 := NewClaimed(cfg, s1);
    s := Forward(cfg, s2, Lock(2));
  }

  lemma NewClaimed(cfg: Config, s: State) returns (n: State)
    requires cfg.lease > 0 && Reaches(cfg, EMPTY, s) && AgreeSafely(cfg, s)
    requires s.db.memories == map["memory" := OLD_ROW] && s.db.tasks.Keys == {0} && s.db.claims.Keys == {1}
    requires s.attempts.Keys == {1} && WorksOn(s, 1, 0, OLD_ROW, Adrift(OLD_ROW, UpsertDense))
    ensures Reaches(cfg, EMPTY, n) && AgreeSafely(cfg, n) && n.db.memories == map["memory" := NEW_ROW]
    ensures n.attempts.Keys == {1, 2} && n.db.tasks.Keys == {0, 1}
    ensures WorksOn(n, 1, 0, OLD_ROW, Adrift(OLD_ROW, UpsertDense)) && WorksOn(n, 2, 1, NEW_ROW, Claimed)
  {
    hide StoreEffect, Whole, NextStep, Reaches, AgreeSafely, Inv;
    var s1 := NewWritten(cfg, s);
    n := Forward(cfg, s1, Claim(2, 1));
    assert n.db.tasks.Keys == {0, 1};
  }

  lemma OwnLease(cfg: Config, s: State, token: nat)
    requires Reaches(cfg, EMPTY, s) && token in s.attempts && s.now < s.attempts[token].expires
    ensures Owns(s, token) && s.db.tasks[s.attempts[token].task].status == Leased(token, s.attempts[token].expires)
  {
    ReachableInv(cfg, s);
    hide Reaches, TablesOk, Genuine, SourcesOk, LocksOk;
  }

  lemma NewWritten(cfg: Config, s: State) returns (n: State)
    requires Reaches(cfg, EMPTY, s) && AgreeSafely(cfg, s)
    requires s.db.memories == map["memory" := OLD_ROW] && s.db.tasks.Keys == {0} && s.db.claims.Keys == {1}
    requires s.attempts.Keys == {1} && WorksOn(s, 1, 0, OLD_ROW, Adrift(OLD_ROW, UpsertDense))
    ensures Reaches(cfg, EMPTY, n) && AgreeSafely(cfg, n) && n.db.memories == map["memory" := NEW_ROW]
    ensures n.attempts == s.attempts && n.db.claims == s.db.claims && n.now == s.now
    ensures n.db.tasks == s.db.tasks[1 := Task("memory", "user", 2, Requested, 0, s.now)]
    ensures s.db.tasks[0].status == Leased(1, s.attempts[1].expires)
  {
    hide StoreEffect, Whole, NextStep, Reaches, AgreeSafely, Inv;
    OwnLease(cfg, s, 1);
    n := Forward(cfg, s, Update("memory", "user", "new", 1));
  }

  /**
   The agreement needs its lock hypothesis too: a reachable state that agrees, and a store call
   in it that is made within its lease by the owner of its task and breaks the agreement. The
   worker's session was lost in between, so another version was written and projected.
   */
  lemma LostSessionSpoilsIndex(cfg: Config)
    requires cfg.lease > 0 && cfg.render("key", "old") != []
    ensures exists s :: Reaches(cfg, EMPTY, s) && Agree(cfg, s) && Enabled(s, StoreOk(1))
                        && InLease(s, StoreOk(1)) && Owned(s, StoreOk(1)) && !Agree(cfg, Apply(cfg, s, StoreOk(1)))
  {
    hide StoreEffect, Whole, Reaches, Inv, AgreeSafely, Document, Apply;
    var s := NewLocked(cfg);
    s := NextCall(cfg, s, 2, 1, NEW_ROW, DeleteDense);
    s := NextCall(cfg, s, 2, 1, NEW_ROW, DeleteText);
    s := NextCall(cfg, s, 2, 1, NEW_ROW, UpsertDense);
    s := NextCall(cfg, s, 2, 1, NEW_ROW, IndexText);
    var n := NewCompleted(cfg, s);
    SomethingToShow(cfg, OLD_ROW);
    CallBreaks(cfg, n, 1, "memory", NEW_ROW);
    assert Agree(cfg, n) by { SafelyAgrees(cfg, n); }
  }

  lemma SafelySteps(cfg: Config, s: State)
    requires AgreeSafely(cfg, s)
    ensures StepsOk(cfg, s)
  {
    hide StepsOk, Agree;
  }

  lemma SafelyAgrees(cfg: Config, s: State)
    requires AgreeSafely(cfg, s)
    ensures Agree(cfg, s)
  {
    hide Agree;
  }

  lemma NewCompleted(cfg: Config, s: State) returns (n: State)
    requires Reaches(cfg, EMPTY, s) && AgreeSafely(cfg, s) && s.db.memories == map["memory" := NEW_ROW]
    requires s.attempts.Keys == {1, 2} && s.db.tasks.Keys == {0, 1}
    requires WorksOn(s, 1, 0, OLD_ROW, Adrift(OLD_ROW, UpsertDense)) && WorksOn(s, 2, 1, NEW_ROW, Locked(NEW_ROW, Finish))
    ensures Reaches(cfg, EMPTY, n) && AgreeSafely(cfg, n) && n.db.memories == map["memory" := NEW_ROW]
    ensures WorksOn(n, 1, 0, OLD_ROW, Adrift(OLD_ROW, UpsertDense)) && !Pending(n.db, "memory")
  {
    hide StoreEffect, Whole, NextStep, Reaches, Inv, AgreeSafely;
    n := Forward(cfg, s, Complete(2));
  }
}
