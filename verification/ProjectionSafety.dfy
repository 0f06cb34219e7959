/**
 What the projection protocol keeps in every reachable state, with no assumption on leases,
 failures, crashes or the speed of workers.
 */
module ProjectionSafety {
  import opened Projection

  type Rows = map<string, Row>
  type Past = map<(string, nat), Row>
  type Tasks = map<nat, Task>

  /** Every row is remembered at its version. */
  ghost predicate RowsOk(rows: Rows, past: Past) {
    forall id :: id in rows ==> rows[id].version >= 1 && (id, rows[id].version) in past && past[(id, rows[id].version)] == rows[id]
  }

  /** Remembered versions belong to a row, are not ahead of it, and never changed owner, kind or key. */
  ghost predicate PastOk(rows: Rows, past: Past) {
    forall p :: p in past ==>
      && p.0 in rows
      && 1 <= p.1 <= rows[p.0].version
      && past[p].version == p.1
      && past[p].user == rows[p.0].user && past[p].kind == rows[p.0].kind && past[p].key == rows[p.0].key
  }

  /** No version is skipped. */
  ghost predicate PastTotal(rows: Rows, past: Past) {
    forall id, v :: id in rows && 1 <= v <= rows[id].version ==> (id, v) in past
  }

  ghost predicate TasksOk(rows: Rows, tasks: Tasks) {
    forall t :: t in tasks ==>
      && tasks[t].memory in rows
      && 1 <= tasks[t].version <= rows[tasks[t].memory].version
      && tasks[t].user == rows[tasks[t].memory].user
  }

  predicate IsTaskFor(tasks: Tasks, t: nat, id: string, v: nat) {
    t in tasks && tasks[t].memory == id && tasks[t].version == v
  }

  ghost predicate TasksUnique(tasks: Tasks) {
    forall t, u | t in tasks && u in tasks ::
      tasks[t].memory == tasks[u].memory && tasks[t].version == tasks[u].version ==> t == u
  }

  ghost predicate TasksTotal(past: Past, tasks: Tasks) {
    forall p :: p in past ==> exists t :: IsTaskFor(tasks, t, p.0, p.1)
  }

  ghost function ClaimsOf(claims: map<nat, nat>, t: nat): set<nat> {
    set k | k in claims && claims[k] == t
  }

  /** The attempt counter of a task is the number of lease tokens ever issued for it. */
  ghost predicate CountsOk(tasks: Tasks, claims: map<nat, nat>) {
    && (forall k :: k in claims ==> claims[k] in tasks)
    && (forall t :: t in tasks ==> tasks[t].attempts == |ClaimsOf(claims, t)|)
  }

  ghost predicate VersionsOk(rows: Rows, past: Past) {
    RowsOk(rows, past) && PastOk(rows, past) && PastTotal(rows, past)
  }

  ghost predicate TablesOk(db: Tables) {
    && VersionsOk(db.memories, db.past)
    && TasksOk(db.memories, db.tasks) && TasksUnique(db.tasks) && TasksTotal(db.past, db.tasks)
    && CountsOk(db.tasks, db.claims)
  }

  ghost predicate AttemptsOk(s: State) {
    forall k :: k in s.attempts ==>
      var a := s.attempts[k];
      && k in s.db.claims && s.db.claims[k] == a.task
      && a.task in s.db.tasks && a.count >= 1
      && a.memory == s.db.tasks[a.task].memory && a.user == s.db.tasks[a.task].user && a.version == s.db.tasks[a.task].version
  }

  /** A lease names a token issued for that task; before it expires, the attempt holding it owns the task. */
  ghost predicate LeasesOk(s: State) {
    && (forall t :: t in s.db.tasks && s.db.tasks[t].status.Leased? ==>
          s.db.tasks[t].status.token in s.db.claims && s.db.claims[s.db.tasks[t].status.token] == t)
    && (forall k :: k in s.attempts && s.now < s.attempts[k].expires ==>
          && s.attempts[k].task in s.db.tasks
          && s.db.tasks[s.attempts[k].task].status == Leased(k, s.attempts[k].expires))
  }

  ghost predicate LocksOk(s: State) {
    forall j, k | j in s.attempts && k in s.attempts ::
      (s.attempts[j].memory == s.attempts[k].memory
       && s.attempts[j].phase.HoldsLock() && s.attempts[k].phase.HoldsLock()) ==> j == k
  }

  /** The source a worker has read: the row itself while it is locked, and a committed version of it ever after. */
  ghost predicate SourceOk(db: Tables, a: Attempt) {
    match a.phase
    case Locked(source, _) =>
      a.memory in db.memories && db.memories[a.memory] == source && source.version == a.version
    case Adrift(source, _) =>
      (a.memory, source.version) in db.past && db.past[(a.memory, source.version)] == source && source.version == a.version
    case Superseded => a.memory in db.memories && db.memories[a.memory].version > a.version
    case _ => true
  }

  ghost predicate SourcesOk(s: State) {
    forall k :: k in s.attempts ==> SourceOk(s.db, s.attempts[k])
  }

  /** An indexed chunk carries the owner and the content its memory had at the version it names. */
  ghost predicate Genuine(cfg: Config, db: Tables, index: Index) {
    forall e :: e in index ==>
      && (e.document, index[e].version) in db.past
      && var row := db.past[(e.document, index[e].version)];
         index[e].user == row.user && e in Entries(cfg, e.document, row)
  }

  ghost predicate WorkersOk(s: State) {
    AttemptsOk(s) && LeasesOk(s) && LocksOk(s) && SourcesOk(s)
  }

  ghost predicate Inv(cfg: Config, s: State) {
    TablesOk(s.db) && WorkersOk(s) && Genuine(cfg, s.db, s.dense) && Genuine(cfg, s.db, s.text)
  }

  lemma InitInv(cfg: Config)
    ensures Inv(cfg, EMPTY)
  {
  }

  /******* Preservation in the database *******/

  predicate IsMutation(e: Event) {
    e.Create? || e.Upsert? || e.Update? || e.Delete?
  }

  /** A row version that extends the table: one ahead of the row it replaces, with a fresh task. */
  ghost predicate Extends(db: Tables, id: string, row: Row, task: nat) {
    && task !in db.tasks
    && row.version == (if id in db.memories then db.memories[id].version + 1 else 1)
    && (id in db.memories ==>
          row.user == db.memories[id].user && row.kind == db.memories[id].kind && row.key == db.memories[id].key)
  }

  /** Every mutation extends the table by one row version and its task, and does nothing else. */
  lemma MutationExtends(cfg: Config, s: State, e: Event)
    requires TasksOk(s.db.memories, s.db.tasks) && AttemptsOk(s) && Enabled(s, e) && IsMutation(e)
    ensures var row := Apply(cfg, s, e).db.memories[e.id];
            Apply(cfg, s, e) == Write(s, e.id, row, e.task) && Extends(s.db, e.id, row, e.task)
    ensures !RowLocked(s, e.id)
  {
  }

  lemma WriteKeepsVersions(db: Tables, id: string, row: Row, task: nat)
    requires VersionsOk(db.memories, db.past) && Extends(db, id, row, task)
    ensures VersionsOk(db.memories[id := row], db.past[(id, row.version) := row])
  {
  }

  lemma WriteKeepsTasks(db: Tables, id: string, row: Row, task: nat, t: Task)
    requires PastOk(db.memories, db.past) && TasksOk(db.memories, db.tasks) && TasksUnique(db.tasks)
    requires Extends(db, id, row, task) && t.memory == id && t.user == row.user && t.version == row.version
    ensures TasksOk(db.memories[id := row], db.tasks[task := t]) && TasksUnique(db.tasks[task := t])
  {
    hide PastOk;
  }

  lemma WriteKeepsTotal(past: Past, tasks: Tasks, row: Row, task: nat, t: Task)
    requires TasksTotal(past, tasks) && task !in tasks
    ensures TasksTotal(past[(t.memory, t.version) := row], tasks[task := t])
  {
    var n := tasks[task := t];
    forall p | p in past[(t.memory, t.version) := row]
      ensures exists u :: IsTaskFor(n, u, p.0, p.1)
    {
      if p == (t.memory, t.version) {
        assert IsTaskFor(n, task, p.0, p.1);
      } else {
        var u :| IsTaskFor(tasks, u, p.0, p.1);
        assert IsTaskFor(n, u, p.0, p.1);
      }
    }
  }

  lemma WriteKeepsCounts(tasks: Tasks, claims: map<nat, nat>, task: nat, t: Task)
    requires CountsOk(tasks, claims) && task !in tasks && t.attempts == 0
    ensures CountsOk(tasks[task := t], claims)
  {
    assert ClaimsOf(claims, task) == {};
  }

  lemma WriteKeepsTables(s: State, id: string, row: Row, task: nat)
    requires TablesOk(s.db) && Extends(s.db, id, row, task)
    ensures TablesOk(Write(s, id, row, task).db)
  {
    var t := Task(id, row.user, row.version, Requested, 0, s.now);
    WriteKeepsVersions(s.db, id, row, task);
    WriteKeepsTasks(s.db, id, row, task, t);
    WriteKeepsTotal(s.db.past, s.db.tasks, row, task, t);
    WriteKeepsCounts(s.db.tasks, s.db.claims, task, t);
    hide VersionsOk, TasksOk, TasksUnique, TasksTotal, CountsOk, Extends;
  }

  ghost predicate SameTask(t: Task, u: Task) {
    t.memory == u.memory && t.user == u.user && t.version == u.version
  }

  /** The same tasks, up to their status, availability and counters. */
  ghost predicate Relabelled(a: Tasks, b: Tasks) {
    b.Keys == a.Keys && forall t :: t in a ==> SameTask(a[t], b[t])
  }

  lemma RelabellingKeeps(rows: Rows, past: Past, a: Tasks, b: Tasks)
    requires TasksOk(rows, a) && TasksUnique(a) && TasksTotal(past, a) && Relabelled(a, b)
    ensures TasksOk(rows, b) && TasksUnique(b) && TasksTotal(past, b)
  {
    assert TasksOk(rows, b) && TasksUnique(b);
    hide TasksOk, TasksUnique;
    forall p | p in past
      ensures exists t :: IsTaskFor(b, t, p.0, p.1)
    {
      var t :| IsTaskFor(a, t, p.0, p.1);
      assert IsTaskFor(b, t, p.0, p.1);
    }
  }

  /** Only a claim counts as an attempt, and a claim counts as one. */
  lemma ClaimKeepsCounts(db: Tables, token: nat, task: nat, status: Status)
    requires CountsOk(db.tasks, db.claims) && token !in db.claims && task in db.tasks
    ensures var n := Counted(db, token, task, status); CountsOk(n.tasks, n.claims)
  {
    var n := Counted(db, token, task, status);
    assert ClaimsOf(n.claims, task) == ClaimsOf(db.claims, task) + {token};
    forall t | t in n.tasks && t != task
      ensures ClaimsOf(n.claims, t) == ClaimsOf(db.claims, t)
    {
    }
  }

  /** Statuses and availability change, and nothing else in the database. */
  ghost predicate Restated(db: Tables, n: Tables) {
    && n == db.(tasks := n.tasks)
    && Relabelled(db.tasks, n.tasks)
    && forall t :: t in db.tasks ==> n.tasks[t].attempts == db.tasks[t].attempts
  }

  lemma RestatingKeeps(db: Tables, n: Tables)
    requires TablesOk(db) && Restated(db, n)
    ensures TablesOk(n)
  {
    RelabellingKeeps(db.memories, db.past, db.tasks, n.tasks);
    hide VersionsOk, TasksOk, TasksUnique, TasksTotal;
  }

  lemma CountedRelabels(db: Tables, token: nat, task: nat, status: Status)
    requires task in db.tasks
    ensures var n := Counted(db, token, task, status);
            Relabelled(db.tasks, n.tasks) && n.memories == db.memories && n.past == db.past
  {
  }

  lemma ClaimKeepsTables(db: Tables, token: nat, task: nat, status: Status)
    requires TablesOk(db) && token !in db.claims && task in db.tasks
    ensures TablesOk(Counted(db, token, task, status))
  {
    var n := Counted(db, token, task, status);
    hide VersionsOk, TasksOk, TasksUnique, TasksTotal, CountsOk;
    CountedRelabels(db, token, task, status);
    hide Relabelled, Counted;
    RelabellingKeeps(db.memories, db.past, db.tasks, n.tasks);
    ClaimKeepsCounts(db, token, task, status);
  }

  lemma RecoveryRestates(s: State)
    ensures Restated(s.db, RecoverLeases(s).db)
  {
  }

  lemma MutationKeepsTables(cfg: Config, s: State, e: Event)
    requires TablesOk(s.db) && AttemptsOk(s) && Enabled(s, e) && IsMutation(e)
    ensures TablesOk(Apply(cfg, s, e).db)
  {
    MutationExtends(cfg, s, e);
    hide Apply, Enabled, TablesOk, AttemptsOk;
    WriteKeepsTables(s, e.id, Apply(cfg, s, e).db.memories[e.id], e.task);
  }

  lemma ClaimEventKeepsTables(cfg: Config, s: State, e: Event)
    requires TablesOk(s.db) && Enabled(s, e) && e.Claim?
    ensures TablesOk(Apply(cfg, s, e).db)
  {
    hide TablesOk;
    var r := RecoverLeases(s);
    RecoveryRestates(s);
    RestatingKeeps(s.db, r.db);
    ClaimKeepsTables(r.db, e.token, e.task, Leased(e.token, s.now + cfg.lease));
  }

  lemma KeepsTables(cfg: Config, s: State, e: Event)
    requires TablesOk(s.db) && AttemptsOk(s) && Enabled(s, e)
    ensures TablesOk(Apply(cfg, s, e).db)
  {
    hide TablesOk, AttemptsOk, Apply, Enabled;
    if IsMutation(e) {
      MutationKeepsTables(cfg, s, e);
    } else if e.Claim? {
      ClaimEventKeepsTables(cfg, s, e);
    } else {
      OthersRestate(cfg, s, e);
      RestatingKeeps(s.db, Apply(cfg, s, e).db);
    }
  }

  lemma OthersRestate(cfg: Config, s: State, e: Event)
    requires Enabled(s, e) && !IsMutation(e) && !e.Claim?
    ensures Restated(s.db, Apply(cfg, s, e).db)
  {
    if e.Recover? {
      RecoveryRestates(s);
    }
  }

  /******* Preservation in the workers *******/

  predicate IsWorkerEvent(e: Event) {
    e.Lock? || e.Disconnect? || e.StoreOk? || e.StoreFail? || e.Fail? || e.Complete? || e.Retry? || e.Crash?
  }

  /** An event of one attempt leaves every other attempt alone, and at most changes its own phase. */
  ghost predicate TouchesOne(s: State, n: State, token: nat) {
    && token in s.attempts
    && (n.attempts == s.attempts - {token}
        || (token in n.attempts && n.attempts == s.attempts[token := s.attempts[token].(phase := n.attempts[token].phase)]))
  }

  lemma WorkerTouchesOne(cfg: Config, s: State, e: Event)
    requires Enabled(s, e) && IsWorkerEvent(e)
    ensures TouchesOne(s, Apply(cfg, s, e), e.token) && Apply(cfg, s, e).now == s.now
  {
    hide StoreEffect, NextStep, Whole, RowLocked, AfterLock;
  }

  lemma WorkerKeepsAttempts(cfg: Config, s: State, e: Event)
    requires AttemptsOk(s) && Enabled(s, e) && IsWorkerEvent(e)
    ensures AttemptsOk(Apply(cfg, s, e))
  {
    hide Apply, Enabled;
    WorkerTouchesOne(cfg, s, e);
    OthersRestate(cfg, s, e);
  }

  lemma KeepsAttempts(cfg: Config, s: State, e: Event)
    requires AttemptsOk(s) && Enabled(s, e)
    ensures AttemptsOk(Apply(cfg, s, e))
  {
    if IsWorkerEvent(e) {
      WorkerKeepsAttempts(cfg, s, e);
    } else if e.Recover? {
      RecoveryRestates(s);
    } else {
      hide RowLocked, HasTravelProfile, IsActiveTravelProfile;
    }
  }

  lemma RecoveryKeepsLeases(s: State)
    requires AttemptsOk(s) && LeasesOk(s)
    ensures LeasesOk(RecoverLeases(s))
  {
  }

  /** The status of a task changes in a worker event only if its token owns the task, and then the attempt is gone. */
  lemma WorkerKeepsOtherTasks(cfg: Config, s: State, e: Event)
    requires AttemptsOk(s) && Enabled(s, e) && IsWorkerEvent(e)
    ensures var n := Apply(cfg, s, e);
            || n.db == s.db
            || (e.token !in n.attempts && Owns(s, e.token) && !n.db.tasks[s.attempts[e.token].task].status.Leased?
                && n.db == s.db.(tasks := s.db.tasks[s.attempts[e.token].task := n.db.tasks[s.attempts[e.token].task]]))
  {
    hide NextStep, Whole, RowLocked, AfterLock;
  }

  lemma WorkerKeepsLeases(cfg: Config, s: State, e: Event)
    requires AttemptsOk(s) && LeasesOk(s) && Enabled(s, e) && IsWorkerEvent(e)
    ensures LeasesOk(Apply(cfg, s, e))
  {
    hide Apply, Enabled;
    WorkerTouchesOne(cfg, s, e);
    WorkerKeepsOtherTasks(cfg, s, e);
  }

  lemma ClaimKeepsLeases(cfg: Config, s: State, e: Event)
    requires AttemptsOk(s) && LeasesOk(s) && Enabled(s, e) && e.Claim?
    ensures LeasesOk(Apply(cfg, s, e))
  {
    RecoveryKeepsLeases(s);
  }

  lemma KeepsLeases(cfg: Config, s: State, e: Event)
    requires AttemptsOk(s) && LeasesOk(s) && Enabled(s, e)
    ensures LeasesOk(Apply(cfg, s, e))
  {
    if IsWorkerEvent(e) {
      WorkerKeepsLeases(cfg, s, e);
    } else if e.Claim? {
      ClaimKeepsLeases(cfg, s, e);
    } else if e.Recover? {
      RecoveryKeepsLeases(s);
    } else {
      hide RowLocked, HasTravelProfile, IsActiveTravelProfile;
    }
  }

  lemma KeepsLocks(cfg: Config, s: State, e: Event)
    requires LocksOk(s) && Enabled(s, e)
    ensures LocksOk(Apply(cfg, s, e))
  {
    hide StoreEffect, NextStep, Whole, HasTravelProfile, Delay;
  }

  /******* Preservation in the stores *******/

  lemma WithoutElsewhere(index: Index, id: string, part: set<Entry>, other: string)
    ensures DocumentIn(Without(index, DocumentIn(index, id).Keys * part), other)
         == if other == id then Without(DocumentIn(index, id), part) else DocumentIn(index, other)
  {
    var n := Without(index, DocumentIn(index, id).Keys * part);
    if other == id {
      assert DocumentIn(n, id) == Without(DocumentIn(index, id), part);
    } else {
      assert DocumentIn(n, other) == DocumentIn(index, other);
    }
  }

  lemma PartElsewhere(cfg: Config, index: Index, id: string, row: Row, part: set<Entry>, other: string)
    ensures DocumentIn(index + Part(Document(cfg, id, row), part), other)
         == if other == id then DocumentIn(index, id) + Part(Document(cfg, id, row), part) else DocumentIn(index, other)
  {
    var document := Document(cfg, id, row);
    assert forall e :: e in document ==> e.document == id;
    hide Document;
    var n := index + Part(document, part);
    if other == id {
      assert DocumentIn(n, id) == DocumentIn(index, id) + Part(document, part);
    } else {
      assert DocumentIn(n, other) == DocumentIn(index, other);
    }
  }

  lemma EffectElsewhere(cfg: Config, s: State, id: string, source: Row, step: Step, part: set<Entry>, other: string)
    requires other != id
    ensures var n := StoreEffect(cfg, s, id, source, step, part);
            DocumentIn(n.dense, other) == DocumentIn(s.dense, other) && DocumentIn(n.text, other) == DocumentIn(s.text, other)
  {
    WithoutElsewhere(s.dense, id, part, other);
    WithoutElsewhere(s.text, id, part, other);
    PartElsewhere(cfg, s.dense, id, source, part, other);
    PartElsewhere(cfg, s.text, id, source, part, other);
    hide DocumentIn, Without, Part, Document;
  }

  lemma WholeParts(cfg: Config, s: State, id: string, source: Row)
    ensures var whole := Whole(cfg, s, id, source);
            && Without(DocumentIn(s.dense, id), whole) == map[] && Without(DocumentIn(s.text, id), whole) == map[]
            && Part(Document(cfg, id, source), whole) == Document(cfg, id, source)
  {
    hide DocumentIn, Document;
  }

  /** A complete call to one store empties the document there, or writes it, and leaves the other store alone. */
  lemma EffectHere(cfg: Config, s: State, id: string, source: Row, step: Step)
    ensures var n := StoreEffect(cfg, s, id, source, step, Whole(cfg, s, id, source));
            match step
            case DeleteDense => DocumentIn(n.dense, id) == map[] && n.text == s.text
            case DeleteText => DocumentIn(n.text, id) == map[] && n.dense == s.dense
            case UpsertDense => DocumentIn(n.dense, id) == DocumentIn(s.dense, id) + Document(cfg, id, source) && n.text == s.text
            case IndexText => DocumentIn(n.text, id) == DocumentIn(s.text, id) + Document(cfg, id, source) && n.dense == s.dense
            case Finish => n == s
  {
    var whole := Whole(cfg, s, id, source);
    WholeParts(cfg, s, id, source);
    WithoutElsewhere(s.dense, id, whole, id);
    WithoutElsewhere(s.text, id, whole, id);
    PartElsewhere(cfg, s.dense, id, source, whole, id);
    PartElsewhere(cfg, s.text, id, source, whole, id);
    hide DocumentIn, Without, Part, Document, Whole;
  }

  lemma MutationKeepsSources(cfg: Config, s: State, e: Event)
    requires TasksOk(s.db.memories, s.db.tasks) && PastOk(s.db.memories, s.db.past) && AttemptsOk(s)
    requires SourcesOk(s) && Enabled(s, e) && IsMutation(e)
    ensures SourcesOk(Apply(cfg, s, e))
  {
    MutationExtends(cfg, s, e);
    var n := Apply(cfg, s, e);
    hide Apply, Enabled, AttemptsOk, TasksOk;
    forall k | k in n.attempts
      ensures SourceOk(n.db, n.attempts[k])
    {
      assert SourceOk(s.db, s.attempts[k]);
    }
  }

  lemma OtherEventKeepsSources(cfg: Config, s: State, e: Event)
    requires RowsOk(s.db.memories, s.db.past) && SourcesOk(s) && Enabled(s, e) && !IsMutation(e)
    ensures SourcesOk(Apply(cfg, s, e))
  {
    hide StoreEffect, Whole, NextStep, RowLocked;
  }

  lemma KeepsSources(cfg: Config, s: State, e: Event)
    requires TablesOk(s.db) && AttemptsOk(s) && SourcesOk(s) && Enabled(s, e)
    ensures SourcesOk(Apply(cfg, s, e))
  {
    hide Apply, Enabled, TasksUnique, TasksTotal, CountsOk, PastTotal, AttemptsOk, SourcesOk;
    if IsMutation(e) {
      MutationKeepsSources(cfg, s, e);
    } else {
      OtherEventKeepsSources(cfg, s, e);
    }
  }

  lemma MutationKeepsGenuine(cfg: Config, s: State, e: Event, index: Index)
    requires TablesOk(s.db) && AttemptsOk(s) && Genuine(cfg, s.db, index) && Enabled(s, e) && IsMutation(e)
    ensures Genuine(cfg, Apply(cfg, s, e).db, index)
  {
    hide Apply, Enabled, Entries;
    MutationExtends(cfg, s, e);
  }

  lemma KeepsGenuine(cfg: Config, s: State, e: Event)
    requires Inv(cfg, s) && Enabled(s, e)
    ensures var n := Apply(cfg, s, e); Genuine(cfg, n.db, n.dense) && Genuine(cfg, n.db, n.text)
  {
    if IsMutation(e) {
      MutationKeepsGenuine(cfg, s, e, s.dense);
      MutationKeepsGenuine(cfg, s, e, s.text);
    } else if e.StoreOk? || e.StoreFail? {
      StoreEventKeepsGenuine(cfg, s, e);
    } else {
      OtherEventKeepsIndex(cfg, s, e);
    }
  }

  lemma OtherEventKeepsIndex(cfg: Config, s: State, e: Event)
    requires Enabled(s, e) && !IsMutation(e) && !e.StoreOk? && !e.StoreFail?
    ensures var n := Apply(cfg, s, e); n.dense == s.dense && n.text == s.text && n.db.past == s.db.past
  {
  }

  lemma StoreEventKeepsGenuine(cfg: Config, s: State, e: Event)
    requires RowsOk(s.db.memories, s.db.past) && SourcesOk(s) && Enabled(s, e) && (e.StoreOk? || e.StoreFail?)
    requires Genuine(cfg, s.db, s.dense) && Genuine(cfg, s.db, s.text)
    ensures var n := Apply(cfg, s, e); Genuine(cfg, n.db, n.dense) && Genuine(cfg, n.db, n.text)
  {
    hide Whole, Genuine, StoreEffect;
    var a := s.attempts[e.token];
    var part := if e.StoreOk? then Whole(cfg, s, a.memory, a.phase.source) else e.part;
    assert SourceOk(s.db, a);
    EffectKeepsGenuine(cfg, s, a.memory, a.phase.source, a.phase.step, part);
  }

  lemma EffectKeepsGenuine(cfg: Config, s: State, id: string, source: Row, step: Step, part: set<Entry>)
    requires (id, source.version) in s.db.past && s.db.past[(id, source.version)] == source
    requires Genuine(cfg, s.db, s.dense) && Genuine(cfg, s.db, s.text)
    ensures var n := StoreEffect(cfg, s, id, source, step, part);
            Genuine(cfg, s.db, n.dense) && Genuine(cfg, s.db, n.text)
  {
    hide Genuine, Without, DocumentIn, Part, Document;
    GenuineWithout(cfg, s.db, s.dense, DocumentIn(s.dense, id).Keys * part);
    GenuineWithout(cfg, s.db, s.text, DocumentIn(s.text, id).Keys * part);
    GenuinePlus(cfg, s.db, s.dense, id, source, part);
    GenuinePlus(cfg, s.db, s.text, id, source, part);
  }

  lemma GenuineWithout(cfg: Config, db: Tables, index: Index, gone: set<Entry>)
    requires Genuine(cfg, db, index)
    ensures Genuine(cfg, db, Without(index, gone))
  {
  }

  lemma GenuinePlus(cfg: Config, db: Tables, index: Index, id: string, row: Row, part: set<Entry>)
    requires Genuine(cfg, db, index) && (id, row.version) in db.past && db.past[(id, row.version)] == row
    ensures Genuine(cfg, db, index + Part(Document(cfg, id, row), part))
  {
    assert forall e :: e in Document(cfg, id, row) ==> e.document == id && e in Entries(cfg, id, row);
    hide Entries;
  }

  /** Every event keeps the invariant. */
  lemma KeepsInv(cfg: Config, s: State, e: Event)
    requires Inv(cfg, s) && Enabled(s, e)
    ensures Inv(cfg, Apply(cfg, s, e))
  {
    KeepsTables(cfg, s, e);
    KeepsAttempts(cfg, s, e);
    KeepsLeases(cfg, s, e);
    KeepsLocks(cfg, s, e);
    KeepsSources(cfg, s, e);
    KeepsGenuine(cfg, s, e);
    hide Apply, Enabled, TablesOk, AttemptsOk, LeasesOk, LocksOk, SourcesOk, Genuine;
  }

  lemma {:induction false} RunKeepsInv(cfg: Config, s: State, events: seq<Event>)
    requires Inv(cfg, s) && IsRun(cfg, s, events)
    ensures Inv(cfg, After(cfg, s, events))
    decreases |events|
  {
    hide Inv, Enabled, Apply;
    if events != [] {
      KeepsInv(cfg, s, events[0]);
      RunKeepsInv(cfg, Apply(cfg, s, events[0]), events[1..]);
    }
  }
}
