/**
 What a mutation of a memory means: the columns it writes, and what becomes of them in the two
 stores once its task is completed. Field by field, so that a reader need not know the machine.
 */
module ProjectionEffects {
  import opened Projection
  import opened ProjectionSafety
  import opened ProjectionAgreement
  import opened ProjectionRuns

  /******* What the runs leave open *******/

  /**
   In every state the clock may advance, leases may be recovered, any queued task that is due may
   be claimed, any attempt may crash or fail at any of its steps, lose its session or fail in a
   store call after any part of its work, and users may write to any memory that is not locked.
   */
  lemma AnythingMayHappen(s: State)
    ensures forall seconds :: Enabled(s, Tick(seconds))
    ensures Enabled(s, Recover)
    ensures forall token, t | token !in s.db.claims && t in s.db.tasks && s.db.tasks[t].status.Requested? && s.db.tasks[t].availableAt <= s.now ::
              Enabled(s, Claim(token, t))
    ensures forall k | k in s.attempts :: Enabled(s, Crash(k)) && (!s.attempts[k].phase.Failed? ==> Enabled(s, Fail(k)))
    ensures forall k | k in s.attempts && s.attempts[k].phase.Failed? :: Enabled(s, Retry(k))
    ensures forall k | k in s.attempts && s.attempts[k].phase.Locked? :: Enabled(s, Disconnect(k))
    ensures forall k | k in s.attempts && (s.attempts[k].phase.Locked? || s.attempts[k].phase.Adrift?) && !s.attempts[k].phase.step.Finish? ::
              Enabled(s, StoreOk(k)) && forall part :: Enabled(s, StoreFail(k, part))
    ensures forall k | k in s.attempts && (s.attempts[k].phase.Superseded? || (s.attempts[k].phase.Locked? && s.attempts[k].phase.step.Finish?)) ::
              Enabled(s, Complete(k))
    ensures forall k | k in s.attempts && s.attempts[k].phase.Claimed? && Unlocked(s, s.attempts[k].memory) :: Enabled(s, Lock(k))
    ensures forall id, user, value, t | MayBeTaken(s, id, user) && t !in s.db.tasks :: Enabled(s, Update(id, user, value, t))
    ensures forall id, user, t | MayBeTaken(s, id, user) && t !in s.db.tasks :: Enabled(s, Delete(id, user, t))
    ensures forall id, user, kind, key, value, t | id !in s.db.memories && t !in s.db.tasks && (kind == Episodic || key != "travel_profile") ::
              Enabled(s, Create(id, user, kind, key, value, t))
    ensures forall id, user, kind, key, value, t | id !in s.db.memories && t !in s.db.tasks && NoTravelProfile(s.db.memories, user) ::
              Enabled(s, Create(id, user, kind, key, value, t))
    ensures forall id, user, value, t | id !in s.db.memories && t !in s.db.tasks && NoTravelProfile(s.db.memories, user) ::
              Enabled(s, Upsert(id, user, value, t))
  {
    hide Enabled, Unlocked, NoTravelProfile;
    WorkersMayAct(s);
    CallsMayBeMade(s);
    RowsMayBeTaken(s);
    RowsMayBeCreated(s);
  }

  lemma WorkersMayAct(s: State)
    ensures forall seconds :: Enabled(s, Tick(seconds))
    ensures Enabled(s, Recover)
    ensures forall token, t | token !in s.db.claims && t in s.db.tasks && s.db.tasks[t].status.Requested? && s.db.tasks[t].availableAt <= s.now ::
              Enabled(s, Claim(token, t))
    ensures forall k | k in s.attempts :: Enabled(s, Crash(k)) && (!s.attempts[k].phase.Failed? ==> Enabled(s, Fail(k)))
    ensures forall k | k in s.attempts && s.attempts[k].phase.Failed? :: Enabled(s, Retry(k))
    ensures forall k | k in s.attempts && s.attempts[k].phase.Locked? :: Enabled(s, Disconnect(k))
  {
  }

  lemma CallsMayBeMade(s: State)
    ensures forall k | k in s.attempts && (s.attempts[k].phase.Locked? || s.attempts[k].phase.Adrift?) && !s.attempts[k].phase.step.Finish? ::
              Enabled(s, StoreOk(k)) && forall part :: Enabled(s, StoreFail(k, part))
    ensures forall k | k in s.attempts && (s.attempts[k].phase.Superseded? || (s.attempts[k].phase.Locked? && s.attempts[k].phase.step.Finish?)) ::
              Enabled(s, Complete(k))
  {
  }

  /** The locks and the profiles of the machine, as they are stated here. */
  lemma LocksAre(s: State, id: string, user: string)
    ensures RowLocked(s, id) <==> !Unlocked(s, id)
    ensures HasTravelProfile(s, user) <==> !NoTravelProfile(s.db.memories, user)
  {
  }

  lemma RowsMayBeTaken(s: State)
    ensures forall k | k in s.attempts && s.attempts[k].phase.Claimed? && Unlocked(s, s.attempts[k].memory) :: Enabled(s, Lock(k))
    ensures forall id, user, value, t | MayBeTaken(s, id, user) && t !in s.db.tasks :: Enabled(s, Update(id, user, value, t))
    ensures forall id, user, t | MayBeTaken(s, id, user) && t !in s.db.tasks :: Enabled(s, Delete(id, user, t))
  {
    forall id
      ensures RowLocked(s, id) <==> !Unlocked(s, id)
    {
      LocksAre(s, id, "");
    }
    hide Unlocked, RowLocked;
  }

  lemma RowsMayBeCreated(s: State)
    ensures forall id, user, kind, key, value, t | id !in s.db.memories && t !in s.db.tasks && (kind == Episodic || key != "travel_profile") ::
              Enabled(s, Create(id, user, kind, key, value, t))
    ensures forall id, user, kind, key, value, t | id !in s.db.memories && t !in s.db.tasks && NoTravelProfile(s.db.memories, user) ::
              Enabled(s, Create(id, user, kind, key, value, t))
    ensures forall id, user, value, t | id !in s.db.memories && t !in s.db.tasks && NoTravelProfile(s.db.memories, user) ::
              Enabled(s, Upsert(id, user, value, t))
  {
    forall user
      ensures HasTravelProfile(s, user) <==> !NoTravelProfile(s.db.memories, user)
    {
      LocksAre(s, "", user);
    }
    hide HasTravelProfile, NoTravelProfile;
  }

  /**
   And what they exclude: no two attempts hold one row and nobody writes a row that is held, a
   claim takes a queued task that is due, a store is called only by an attempt that has locked
   its source and has a call left, and a task is completed only by one that has none left.
   */
  lemma NothingElseHappens(s: State, e: Event)
    requires Enabled(s, e)
    ensures e.Claim? ==> e.token !in s.db.claims && e.task in s.db.tasks && s.db.tasks[e.task].status == Requested
                         && s.db.tasks[e.task].availableAt <= s.now
    ensures e.Lock? ==> e.token in s.attempts && s.attempts[e.token].phase == Claimed && Unlocked(s, s.attempts[e.token].memory)
    ensures IsMutation(e) ==> e.task !in s.db.tasks && (e.id in s.db.memories ==> Unlocked(s, e.id) && s.db.memories[e.id].user == e.user)
    ensures e.StoreOk? || e.StoreFail? ==>
              && e.token in s.attempts && (s.attempts[e.token].phase.Locked? || s.attempts[e.token].phase.Adrift?)
              && !s.attempts[e.token].phase.step.Finish?
    ensures e.Complete? ==>
              && e.token in s.attempts
              && (s.attempts[e.token].phase.Superseded? || (s.attempts[e.token].phase.Locked? && s.attempts[e.token].phase.step.Finish?))
    ensures e.Fail? ==> e.token in s.attempts && s.attempts[e.token].phase != Failed
    ensures e.Retry? ==> e.token in s.attempts && s.attempts[e.token].phase == Failed
  {
  }

  /** No attempt holds the row of the memory. */
  predicate Unlocked(s: State, id: string) {
    forall k | k in s.attempts && s.attempts[k].memory == id :: !s.attempts[k].phase.Superseded? && !s.attempts[k].phase.Locked?
  }

  /** A live row of the user that no attempt holds. */
  predicate MayBeTaken(s: State, id: string, user: string) {
    id in s.db.memories && s.db.memories[id].user == user && !s.db.memories[id].deleted && Unlocked(s, id)
  }

  predicate NoTravelProfile(rows: map<string, Row>, user: string) {
    forall id | id in rows && rows[id].user == user && rows[id].kind == Profile && !rows[id].deleted :: rows[id].key != "travel_profile"
  }

  /******* The columns *******/

  /** Only the row of one memory differs. */
  ghost predicate OthersStay(before: map<string, Row>, after: map<string, Row>, id: string) {
    && id in after
    && (forall other | other != id :: other in before <==> other in after)
    && forall other | other != id && other in before :: after[other] == before[other]
  }

  /** Only the given task is new: it asks for the projection of this version, at once. */
  ghost predicate Enqueued(before: map<nat, Task>, after: map<nat, Task>, task: nat, id: string, row: Row, now: nat) {
    && task !in before && task in after
    && after[task].memory == id && after[task].user == row.user && after[task].version == row.version
    && after[task].status.Requested? && after[task].availableAt == now && after[task].attempts == 0
    && forall t | t != task :: (t in before <==> t in after) && (t in before ==> after[t] == before[t])
  }

  /** What each kind of mutation does to the row. */
  ghost predicate RowWritten(before: map<string, Row>, row: Row, e: Event)
    requires IsMutation(e)
  {
    match e
    case Create(id, user, kind, key, value, _) =>
      id !in before && row.user == user && row.kind == kind && row.key == key && row.value == value && !row.deleted && row.version == 1
    case Upsert(id, user, value, _) =>
      && row.user == user && row.kind == Profile && row.key == "travel_profile" && row.value == value && !row.deleted
      && row.version == if id in before then before[id].version + 1 else 1
    case Update(id, user, value, _) =>
      && id in before && !before[id].deleted && before[id].user == user
      && row.user == user && row.kind == before[id].kind && row.key == before[id].key
      && row.value == value && !row.deleted && row.version == before[id].version + 1
    case Delete(id, user, _) =>
      && id in before && !before[id].deleted && before[id].user == user
      && row.user == user && row.kind == before[id].kind && row.key == before[id].key
      && row.value == before[id].value && row.deleted && row.version == before[id].version + 1
  }

  /** Every mutation writes these columns of one row and one task, and leaves both stores alone. */
  lemma MutationWrites(cfg: Config, s: State, e: Event)
    requires Enabled(s, e) && IsMutation(e)
    ensures var n := Apply(cfg, s, e);
            && OthersStay(s.db.memories, n.db.memories, e.id)
            && RowWritten(s.db.memories, n.db.memories[e.id], e)
            && Enqueued(s.db.tasks, n.db.tasks, e.task, e.id, n.db.memories[e.id], s.now)
            && n.dense == s.dense && n.text == s.text && n.attempts == s.attempts
  {
    MutationWritesRow(cfg, s, e);
    hide Apply, Enabled, RowWritten;
    WriteIs(s, e.id, Apply(cfg, s, e).db.memories[e.id], e.task);
  }

  lemma MutationWritesRow(cfg: Config, s: State, e: Event)
    requires Enabled(s, e) && IsMutation(e)
    ensures var n := Apply(cfg, s, e);
            && e.task !in s.db.tasks && e.id in n.db.memories && RowWritten(s.db.memories, n.db.memories[e.id], e)
            && n == Write(s, e.id, n.db.memories[e.id], e.task)
  {
    hide RowLocked, HasTravelProfile;
    if e.Create? {
    } else if e.Upsert? {
    } else if e.Update? {
    } else if e.Delete? {
    }
  }

  lemma WriteIs(s: State, id: string, row: Row, task: nat)
    requires task !in s.db.tasks
    ensures var n := Write(s, id, row, task);
            && OthersStay(s.db.memories, n.db.memories, id) && n.db.memories[id] == row
            && Enqueued(s.db.tasks, n.db.tasks, task, id, row, s.now)
            && n.dense == s.dense && n.text == s.text && n.attempts == s.attempts
  {
  }

  /** No event but a mutation of the memory changes its row, and none a deleted one. */
  lemma DeletedStays(cfg: Config, s: State, e: Event, id: string)
    requires Enabled(s, e) && id in s.db.memories && s.db.memories[id].deleted
    ensures id in Apply(cfg, s, e).db.memories && Apply(cfg, s, e).db.memories[id] == s.db.memories[id]
  {
    hide StoreEffect, Whole, AfterLock, NextStep, RowLocked, HasTravelProfile;
  }

  /** A deleted memory is never changed or revived in any run. */
  lemma {:induction false} DeletedIsFinal(cfg: Config, s: State, events: seq<Event>, id: string)
    requires IsRun(cfg, s, events) && id in s.db.memories && s.db.memories[id].deleted
    ensures id in After(cfg, s, events).db.memories && After(cfg, s, events).db.memories[id] == s.db.memories[id]
    decreases |events|
  {
    hide Enabled, Apply;
    if events != [] {
      DeletedStays(cfg, s, events[0], id);
      DeletedIsFinal(cfg, Apply(cfg, s, events[0]), events[1..], id);
    }
  }

  /** A user's live profile memory with the travel profile's key. */
  predicate LiveTravelProfile(rows: map<string, Row>, id: string, user: string) {
    id in rows && rows[id].user == user && rows[id].kind == Profile && rows[id].key == "travel_profile" && !rows[id].deleted
  }

  /** Each user has one live travel profile at most. */
  ghost predicate OneTravelProfile(rows: map<string, Row>) {
    forall a, b, user | LiveTravelProfile(rows, a, user) && LiveTravelProfile(rows, b, user) :: a == b
  }

  /** A row that becomes a live travel profile replaces the user's own, if there is one. */
  lemma NewTravelProfile(cfg: Config, s: State, e: Event, user: string)
    requires Enabled(s, e) && IsMutation(e) && LiveTravelProfile(Apply(cfg, s, e).db.memories, e.id, user)
    ensures LiveTravelProfile(s.db.memories, e.id, user) || forall id :: !LiveTravelProfile(s.db.memories, id, user)
  {
    MutationWritesRow(cfg, s, e);
    hide Apply;
    forall id
      ensures LiveTravelProfile(s.db.memories, id, user) ==> HasTravelProfile(s, user)
    {
      assert LiveTravelProfile(s.db.memories, id, user) ==> IsActiveTravelProfile(s.db.memories[id], user);
    }
  }

  lemma KeepsOneTravelProfile(cfg: Config, s: State, e: Event)
    requires Enabled(s, e) && OneTravelProfile(s.db.memories)
    ensures OneTravelProfile(Apply(cfg, s, e).db.memories)
  {
    if IsMutation(e) {
      MutationWrites(cfg, s, e);
      var n := Apply(cfg, s, e).db.memories;
      forall a, b, user | LiveTravelProfile(n, a, user) && LiveTravelProfile(n, b, user)
        ensures a == b
      {
        assert a != e.id ==> LiveTravelProfile(s.db.memories, a, user);
        assert b != e.id ==> LiveTravelProfile(s.db.memories, b, user);
        if a == e.id || b == e.id {
          NewTravelProfile(cfg, s, e, user);
        }
        hide LiveTravelProfile, OthersStay;
      }
    } else {
      OtherEventKeepsRows(cfg, s, e);
    }
  }

  lemma OtherEventKeepsRows(cfg: Config, s: State, e: Event)
    requires Enabled(s, e) && !IsMutation(e)
    ensures Apply(cfg, s, e).db.memories == s.db.memories
  {
    hide StoreEffect, Whole, AfterLock, NextStep;
  }

  /** In every reachable state a user has one live travel profile at most. */
  lemma {:induction false} OneTravelProfileInRuns(cfg: Config, s: State, events: seq<Event>)
    requires OneTravelProfile(s.db.memories) && IsRun(cfg, s, events)
    ensures OneTravelProfile(After(cfg, s, events).db.memories)
    decreases |events|
  {
    hide Apply, Enabled, OneTravelProfile;
    if events != [] {
      KeepsOneTravelProfile(cfg, s, events[0]);
      OneTravelProfileInRuns(cfg, Apply(cfg, s, events[0]), events[1..]);
    }
  }

  /******* The past *******/

  /** Committed row versions are never changed or forgotten. */
  lemma PastGrows(cfg: Config, s: State, e: Event)
    requires Inv(cfg, s) && Enabled(s, e)
    ensures forall k :: k in s.db.past ==> k in Apply(cfg, s, e).db.past && Apply(cfg, s, e).db.past[k] == s.db.past[k]
  {
    hide Enabled, Apply, Genuine, TasksTotal, TasksUnique, CountsOk, PastTotal, SourcesOk, LocksOk, LeasesOk;
    if IsMutation(e) {
      MutationExtends(cfg, s, e);
    } else if e.Claim? {
      ClaimKeepsPast(cfg, s, e);
    } else {
      OthersRestate(cfg, s, e);
    }
  }

  lemma ClaimKeepsPast(cfg: Config, s: State, e: Event)
    requires Enabled(s, e) && e.Claim?
    ensures Apply(cfg, s, e).db.past == s.db.past
  {
  }

  lemma {:induction false} PastGrowsInRuns(cfg: Config, s: State, events: seq<Event>)
    requires Inv(cfg, s) && IsRun(cfg, s, events)
    ensures forall k :: k in s.db.past ==> k in After(cfg, s, events).db.past && After(cfg, s, events).db.past[k] == s.db.past[k]
    decreases |events|
  {
    hide Inv, Enabled, Apply;
    if events != [] {
      PastGrows(cfg, s, events[0]);
      KeepsInv(cfg, s, events[0]);
      PastGrowsInRuns(cfg, Apply(cfg, s, events[0]), events[1..]);
    }
  }

  lemma PastKept(cfg: Config, s: State, now: State)
    requires Inv(cfg, s) && Reaches(cfg, s, now)
    ensures forall k :: k in s.db.past ==> k in now.db.past && now.db.past[k] == s.db.past[k]
  {
    hide Inv, IsRun, After;
    var events :| IsRun(cfg, s, events) && After(cfg, s, events) == now;
    PastGrowsInRuns(cfg, s, events);
  }

  /******* Runs in parts *******/

  lemma {:induction false} RunSplit(cfg: Config, s: State, a: seq<Event>, b: seq<Event>)
    requires IsRun(cfg, s, a + b)
    ensures IsRun(cfg, s, a) && IsRun(cfg, After(cfg, s, a), b) && After(cfg, After(cfg, s, a), b) == After(cfg, s, a + b)
    decreases |a|
  {
    hide Enabled, Apply;
    if a == [] {
      assert a + b == b;
    } else {
      assert (a + b)[0] == a[0] && (a + b)[1..] == a[1..] + b;
      RunSplit(cfg, Apply(cfg, s, a[0]), a[1..], b);
    }
  }

  lemma ClaimKeepsTask(cfg: Config, s: State, e: Event, t: nat, id: string, v: nat)
    requires Enabled(s, e) && e.Claim? && IsTaskFor(s.db.tasks, t, id, v)
    ensures IsTaskFor(Apply(cfg, s, e).db.tasks, t, id, v)
  {
  }

  lemma TaskStays(cfg: Config, s: State, e: Event, t: nat, id: string, v: nat)
    requires Inv(cfg, s) && Enabled(s, e) && IsTaskFor(s.db.tasks, t, id, v)
    ensures IsTaskFor(Apply(cfg, s, e).db.tasks, t, id, v)
  {
    hide Inv;
    if IsMutation(e) {
      MutationWrites(cfg, s, e);
      hide Enabled, Apply, RowWritten;
    } else if e.Claim? {
      ClaimKeepsTask(cfg, s, e, t, id, v);
    } else {
      OthersRestate(cfg, s, e);
      hide Enabled, Apply;
    }
  }

  lemma {:induction false} TaskStaysInRuns(cfg: Config, s: State, events: seq<Event>, t: nat, id: string, v: nat)
    requires Inv(cfg, s) && IsRun(cfg, s, events) && IsTaskFor(s.db.tasks, t, id, v)
    ensures IsTaskFor(After(cfg, s, events).db.tasks, t, id, v)
    decreases |events|
  {
    hide Inv, Enabled, Apply;
    if events != [] {
      TaskStays(cfg, s, events[0], t, id, v);
      KeepsInv(cfg, s, events[0]);
      TaskStaysInRuns(cfg, Apply(cfg, s, events[0]), events[1..], t, id, v);
    }
  }

  /******* The stores *******/

  /**
   The entries of a memory in a store are exactly the numbered chunks of its key and value, under
   its owner and version, and none if it is deleted.
   */
  ghost predicate StoreShows(cfg: Config, index: Index, id: string, row: Row) {
    && (forall x | x in index && x.document == id ::
          && !row.deleted && x.index < |cfg.render(row.key, row.value)| && x.content == cfg.render(row.key, row.value)[x.index]
          && index[x].user == row.user && index[x].version == row.version)
    && (!row.deleted ==> forall i: nat | i < |cfg.render(row.key, row.value)| ::
          Entry(id, i, cfg.render(row.key, row.value)[i]) in index)
  }

  lemma DocumentShows(cfg: Config, index: Index, id: string, row: Row)
    requires DocumentIn(index, id) == Document(cfg, id, row)
    ensures StoreShows(cfg, index, id, row)
  {
    forall x | x in index && x.document == id
      ensures x in Document(cfg, id, row) && index[x] == Document(cfg, id, row)[x]
    {
      assert x in DocumentIn(index, id) && DocumentIn(index, id)[x] == index[x];
    }
    if !row.deleted {
      forall i: nat | i < |cfg.render(row.key, row.value)|
        ensures Entry(id, i, cfg.render(row.key, row.value)[i]) in index
      {
        var x := Chunk(cfg, id, row, i);
        assert x in Entries(cfg, id, row);
        assert x in DocumentIn(index, id);
      }
    }
  }

  /** The entries of other memories stay. */
  ghost predicate OthersKept(before: Index, after: Index, id: string) {
    forall x: Entry | x.document != id :: (x in before <==> x in after) && (x in before ==> after[x] == before[x])
  }

  ghost predicate Emptied(index: Index, id: string) {
    forall x: Entry | x.document == id :: x !in index
  }

  /** The memory's chunks are there, under its owner and version, and what was there before stays. */
  ghost predicate Wrote(cfg: Config, before: Index, after: Index, id: string, row: Row) {
    && (forall x | x in before :: x in after)
    && (forall x | x in after && x !in before ::
          !row.deleted && x.document == id && x.index < |cfg.render(row.key, row.value)| && x.content == cfg.render(row.key, row.value)[x.index])
    && (!row.deleted ==> forall i: nat | i < |cfg.render(row.key, row.value)| ::
          var x := Entry(id, i, cfg.render(row.key, row.value)[i]); x in after && after[x] == Meta(row.user, row.version))
  }

  lemma DocumentMeans(cfg: Config, id: string, row: Row)
    ensures forall x :: x in Document(cfg, id, row) <==>
              && !row.deleted && x.document == id && x.index < |cfg.render(row.key, row.value)|
              && x.content == cfg.render(row.key, row.value)[x.index]
    ensures forall x :: x in Document(cfg, id, row) ==> Document(cfg, id, row)[x] == Meta(row.user, row.version)
  {
    forall x: Entry | !row.deleted && x.document == id && x.index < |cfg.render(row.key, row.value)|
                      && x.content == cfg.render(row.key, row.value)[x.index]
      ensures x in Document(cfg, id, row)
    {
      assert x == Chunk(cfg, id, row, x.index);
      assert x in Entries(cfg, id, row);
    }
  }

  /** Whatever part of a call is done, other memories' entries stay. */
  lemma CallMeans(cfg: Config, index: Index, id: string, row: Row, part: set<Entry>)
    ensures OthersKept(index, index, id)
    ensures OthersKept(index, Without(index, DocumentIn(index, id).Keys * part), id)
    ensures OthersKept(index, index + Part(Document(cfg, id, row), part), id)
  {
    DocumentMeans(cfg, id, row);
    hide Document;
  }

  /** A whole call empties the memory's document, or writes it. */
  lemma WholeCallMeans(cfg: Config, s: State, id: string, row: Row)
    ensures var whole := Whole(cfg, s, id, row);
            && Emptied(Without(s.dense, DocumentIn(s.dense, id).Keys * whole), id)
            && Emptied(Without(s.text, DocumentIn(s.text, id).Keys * whole), id)
            && Wrote(cfg, s.dense, s.dense + Part(Document(cfg, id, row), whole), id, row)
            && Wrote(cfg, s.text, s.text + Part(Document(cfg, id, row), whole), id, row)
  {
    DocumentMeans(cfg, id, row);
    hide Document;
    forall index: Index, whole | whole >= DocumentIn(index, id).Keys + Document(cfg, id, row).Keys
      ensures Emptied(Without(index, DocumentIn(index, id).Keys * whole), id)
      ensures Wrote(cfg, index, index + Part(Document(cfg, id, row), whole), id, row)
    {
    }
  }

  /** The task of a memory's current version is completed, so the version is not pending. */
  lemma CompletedIsNotPending(cfg: Config, s: State, t: nat, id: string)
    requires Inv(cfg, s) && id in s.db.memories && IsTaskFor(s.db.tasks, t, id, s.db.memories[id].version)
    requires s.db.tasks[t].status.Completed?
    ensures !Pending(s.db, id)
  {
    assert TasksUnique(s.db.tasks);
    hide Inv, TasksUnique;
    forall u | IsTaskFor(s.db.tasks, u, id, s.db.memories[id].version)
      ensures u == t
    {
      SameVersionSameTask(s.db.tasks, t, u, id, s.db.memories[id].version);
    }
  }

  lemma SameVersionSameTask(tasks: Tasks, t: nat, u: nat, id: string, v: nat)
    requires TasksUnique(tasks) && IsTaskFor(tasks, t, id, v) && IsTaskFor(tasks, u, id, v)
    ensures t == u
  {
  }

  /**
   Main result on mutations: over every run in which no store call outlives its lease or its
   lock, once the task that a mutation enqueued is completed and while its version is current,
   both stores show exactly the row that the mutation wrote.
   */
  lemma MutationIsShown(cfg: Config, before: seq<Event>, e: Event, later: seq<Event>)
    requires IsMutation(e) && IsRun(cfg, EMPTY, before + [e] + later) && Respectful(cfg, EMPTY, before + [e] + later)
    ensures IsRun(cfg, EMPTY, before) && Enabled(After(cfg, EMPTY, before), e)
    ensures var s := After(cfg, EMPTY, before);
            var row, n := Apply(cfg, s, e).db.memories[e.id], After(cfg, EMPTY, before + [e] + later);
            && RowWritten(s.db.memories, row, e)
            && (e.id in n.db.memories && n.db.memories[e.id].version == row.version
                && e.task in n.db.tasks && n.db.tasks[e.task].status.Completed? ==>
                  n.db.memories[e.id] == row && StoreShows(cfg, n.dense, e.id, row) && StoreShows(cfg, n.text, e.id, row))
  {
    var events := before + [e] + later;
    var s, m, n := StepInRun(cfg, before, e, later);
    MutationWrites(cfg, s, e);
    var row := m.db.memories[e.id];
    hide Apply, Enabled, IsRun, After, RowWritten, StoreShows, Inv;
    if e.id in n.db.memories && n.db.memories[e.id].version == row.version
       && e.task in n.db.tasks && n.db.tasks[e.task].status.Completed? {
      assert IsTaskFor(m.db.tasks, e.task, e.id, row.version);
      TaskStaysInRuns(cfg, m, later, e.task, e.id, row.version);
      CompletedIsNotPending(cfg, n, e.task, e.id);
      PastGrowsInRuns(cfg, m, later);
      CurrentIsPast(cfg, m, e.id);
      CurrentIsPast(cfg, n, e.id);
      RespectfulRunsAgree(cfg, events);
      ShownIsShown(cfg, n, e.id);
    }
  }

  lemma ShownIsShown(cfg: Config, s: State, id: string)
    requires id in s.db.memories && Shown(cfg, s, id)
    ensures StoreShows(cfg, s.dense, id, s.db.memories[id]) && StoreShows(cfg, s.text, id, s.db.memories[id])
  {
    hide DocumentIn, Document, StoreShows;
    DocumentShows(cfg, s.dense, id, s.db.memories[id]);
    DocumentShows(cfg, s.text, id, s.db.memories[id]);
  }

  lemma CurrentIsPast(cfg: Config, s: State, id: string)
    requires Inv(cfg, s) && id in s.db.memories
    ensures var v := s.db.memories[id].version; (id, v) in s.db.past && s.db.past[(id, v)] == s.db.memories[id]
  {
    assert RowsOk(s.db.memories, s.db.past);
    hide Inv;
  }

  /** The states around an event in the middle of a run. */
  lemma StepInRun(cfg: Config, before: seq<Event>, e: Event, later: seq<Event>) returns (s: State, m: State, n: State)
    requires IsRun(cfg, EMPTY, before + [e] + later)
    ensures IsRun(cfg, EMPTY, before) && s == After(cfg, EMPTY, before) && Enabled(s, e) && m == Apply(cfg, s, e)
    ensures IsRun(cfg, m, later) && n == After(cfg, m, later) == After(cfg, EMPTY, before + [e] + later)
    ensures Inv(cfg, s) && Inv(cfg, m) && Inv(cfg, n)
  {
    InitInv(cfg);
    hide Inv, Enabled, Apply;
    assert before + [e] + later == before + ([e] + later);
    RunSplit(cfg, EMPTY, before, [e] + later);
    s := After(cfg, EMPTY, before);
    assert ([e] + later)[0] == e && ([e] + later)[1..] == later;
    m := Apply(cfg, s, e);
    n := After(cfg, m, later);
    RunKeepsInv(cfg, EMPTY, before);
    KeepsInv(cfg, s, e);
    RunKeepsInv(cfg, m, later);
  }

  /**
   A deletion, in particular: whatever happens later, the row stays deleted with its key, value,
   owner and kind, and once its task is completed no entry of the memory is left in either store.
   */
  lemma DeletionEmptiesStores(cfg: Config, before: seq<Event>, id: string, user: string, task: nat, later: seq<Event>)
    requires var events := before + [Delete(id, user, task)] + later;
             IsRun(cfg, EMPTY, events) && Respectful(cfg, EMPTY, events)
    ensures IsRun(cfg, EMPTY, before)
    ensures var was, n := After(cfg, EMPTY, before).db.memories, After(cfg, EMPTY, before + [Delete(id, user, task)] + later);
            && id in was && id in n.db.memories
            && n.db.memories[id].deleted && n.db.memories[id].user == was[id].user == user && n.db.memories[id].kind == was[id].kind
            && n.db.memories[id].key == was[id].key && n.db.memories[id].value == was[id].value
            && (task in n.db.tasks && n.db.tasks[task].status.Completed? ==>
                  forall x: Entry | x.document == id :: x !in n.dense && x !in n.text)
  {
    hide Apply, Enabled, IsRun, After, Inv, Respectful, Enqueued;
    var e := Delete(id, user, task);
    var s, m, n := StepInRun(cfg, before, e, later);
    MutationWrites(cfg, s, e);
    DeletedIsFinal(cfg, m, later, id);
    MutationIsShown(cfg, before, e, later);
    hide RowWritten, OthersStay;
    assert n.db.memories[id] == m.db.memories[id];
  }

  /** An update or upsert, in particular: once its task is completed, and unless it is overwritten, both stores show its value. */
  lemma UpdateIsShown(cfg: Config, before: seq<Event>, e: Event, later: seq<Event>)
    requires e.Create? || e.Update? || e.Upsert?
    requires IsRun(cfg, EMPTY, before + [e] + later) && Respectful(cfg, EMPTY, before + [e] + later)
    ensures var n := After(cfg, EMPTY, before + [e] + later);
            e.task in n.db.tasks && n.db.tasks[e.task].status.Completed? && e.id in n.db.memories
            && n.db.memories[e.id].version == n.db.tasks[e.task].version ==>
              var row := n.db.memories[e.id];
              && row.value == e.value && row.user == e.user && !row.deleted
              && forall i: nat | i < |cfg.render(row.key, e.value)| ::
                   var x := Entry(e.id, i, cfg.render(row.key, e.value)[i]); x in n.dense && x in n.text
  {
    var s, m, n := StepInRun(cfg, before, e, later);
    MutationWrites(cfg, s, e);
    hide Apply, Enabled, IsRun, After, Inv, Respectful;
    MutationIsShown(cfg, before, e, later);
    assert IsTaskFor(m.db.tasks, e.task, e.id, m.db.memories[e.id].version);
    TaskStaysInRuns(cfg, m, later, e.task, e.id, m.db.memories[e.id].version);
  }
}
