/**
 The private-memory projection protocol as a transition system.

 Every mutation of a memory bumps its version and enqueues a task in one transaction. Workers
 claim tasks under expiring leases, lock the memory row, delete and re-ingest its document in
 two external stores, and complete the task or back off. Any step may fail or crash, a failing
 store call may have done part of its work, and mutations go on all the time.
 */
module Projection {

  /******* Entities *******/

  datatype Kind = Profile | Episodic

  /** A row of `ai_memories`. */
  datatype Row = Row(user: string, kind: Kind, key: string, value: string, deleted: bool, version: nat)

  const TRAVEL_PROFILE := "travel_profile"

  datatype Status = Requested | Leased(token: nat, expires: nat) | Completed

  /** A row of `ai_memory_projection_tasks`. */
  datatype Task = Task(memory: string, user: string, version: nat, status: Status, attempts: nat, availableAt: nat)

  /** The identity of an indexed chunk, and the metadata stored with it. */
  datatype Entry = Entry(document: string, index: nat, content: string)
  datatype Meta = Meta(user: string, version: nat)
  type Index = map<Entry, Meta>

  /** The next store call of a worker that holds the row lock. */
  datatype Step = DeleteDense | DeleteText | UpsertDense | IndexText | Finish

  datatype Phase =
    | Claimed                          // the claim is committed, the row is not locked yet
    | Superseded                       // the row is locked and newer than the task
    | Locked(source: Row, step: Step)  // the row is locked at the task's version
    | Adrift(source: Row, step: Step)  // the database session and its lock are lost, which the worker does not notice yet
    | Failed                           // the transaction is rolled back, the back-off is still to be written
  {
    predicate HoldsLock() { Superseded? || Locked? }

    predicate Working() { Locked? || Adrift? }
  }

  /** One pass of a worker's loop over the task it claimed with a given lease token. */
  datatype Attempt = Attempt(task: nat, memory: string, user: string, version: nat, count: nat, expires: nat, phase: Phase)

  /**
   The database. `past` remembers every row version ever committed and `claims` every lease
   token ever issued; the protocol never reads them, only its properties do.
   */
  datatype Tables = Tables(
    memories: map<string, Row>,
    tasks: map<nat, Task>,
    past: map<(string, nat), Row>,
    claims: map<nat, nat>)

  datatype State = State(now: nat, db: Tables, dense: Index, text: Index, attempts: map<nat, Attempt>)

  const EMPTY := State(0, Tables(map[], map[], map[], map[]), map[], map[], map[])

  /** How a key and a value are rendered into chunks, and the worker's two time parameters. */
  datatype Config = Config(render: (string, string) -> seq<string>, lease: nat, maxDelay: nat)

  /******* The documents of the index *******/

  function Chunk(cfg: Config, id: string, row: Row, i: nat): Entry
    requires i < |cfg.render(row.key, row.value)|
  {
    Entry(id, i, cfg.render(row.key, row.value)[i])
  }

  function Entries(cfg: Config, id: string, row: Row): set<Entry> {
    if row.deleted then {}
    else set i | 0 <= i < |cfg.render(row.key, row.value)| :: Chunk(cfg, id, row, i)
  }

  /** What the index must hold for a memory: its current chunks, or nothing once it is deleted. */
  function Document(cfg: Config, id: string, row: Row): Index {
    map e | e in Entries(cfg, id, row) :: Meta(row.user, row.version)
  }

  /** The part of the index that belongs to one document. */
  function DocumentIn(index: Index, id: string): Index {
    map e | e in index && e.document == id :: index[e]
  }

  function Without(index: Index, gone: set<Entry>): Index {
    index - gone
  }

  function Part(index: Index, part: set<Entry>): Index {
    map e | e in index && e in part :: index[e]
  }

  /******* Events *******/

  datatype Event =
    | Tick(seconds: nat)
    | Create(id: string, user: string, kind: Kind, key: string, value: string, task: nat)
    | Upsert(id: string, user: string, value: string, task: nat)
    | Update(id: string, user: string, value: string, task: nat)
    | Delete(id: string, user: string, task: nat)
    | Recover
    | Claim(token: nat, task: nat)
    | Lock(token: nat)
    | Disconnect(token: nat)
    | StoreOk(token: nat)
    | StoreFail(token: nat, part: set<Entry>)
    | Fail(token: nat)
    | Complete(token: nat)
    | Retry(token: nat)
    | Crash(token: nat)

  predicate RowLocked(s: State, id: string) {
    exists k :: k in s.attempts && s.attempts[k].memory == id && s.attempts[k].phase.HoldsLock()
  }

  predicate IsActiveTravelProfile(row: Row, user: string) {
    row.user == user && row.kind == Profile && row.key == TRAVEL_PROFILE && !row.deleted
  }

  predicate HasTravelProfile(s: State, user: string) {
    exists id :: id in s.db.memories && IsActiveTravelProfile(s.db.memories[id], user)
  }

  predicate Mutable(s: State, id: string, user: string) {
    id in s.db.memories && s.db.memories[id].user == user && !s.db.memories[id].deleted && !RowLocked(s, id)
  }

  predicate Enabled(s: State, e: Event) {
    match e
    case Tick(_) => true
    case Create(id, user, kind, key, _, task) =>
      && id !in s.db.memories && task !in s.db.tasks
      && (kind == Profile && key == TRAVEL_PROFILE ==> !HasTravelProfile(s, user))
    case Upsert(id, user, _, task) =>
      && task !in s.db.tasks
      && if id in s.db.memories then Mutable(s, id, user) && IsActiveTravelProfile(s.db.memories[id], user)
         else !HasTravelProfile(s, user)
    case Update(id, user, _, task) => task !in s.db.tasks && Mutable(s, id, user)
    case Delete(id, user, task) => task !in s.db.tasks && Mutable(s, id, user)
    case Recover => true
    case Claim(token, task) =>
      && token !in s.db.claims
      && task in s.db.tasks && s.db.tasks[task].status.Requested? && s.db.tasks[task].availableAt <= s.now
    case Lock(token) =>
      token in s.attempts && s.attempts[token].phase.Claimed? && !RowLocked(s, s.attempts[token].memory)
    case Disconnect(token) => token in s.attempts && s.attempts[token].phase.Locked?
    case StoreOk(token) => InStoreCall(s, token)
    case StoreFail(token, _) => InStoreCall(s, token)
    case Fail(token) => token in s.attempts && !s.attempts[token].phase.Failed?
    case Complete(token) =>
      && token in s.attempts
      && var phase := s.attempts[token].phase; phase.Superseded? || (phase.Locked? && phase.step.Finish?)
    case Retry(token) => token in s.attempts && s.attempts[token].phase.Failed?
    case Crash(token) => token in s.attempts
  }

  predicate InStoreCall(s: State, token: nat) {
    && token in s.attempts
    && s.attempts[token].phase.Working() && !s.attempts[token].phase.step.Finish?
  }

  /** Commits a row version together with its projection task. */
  function Write(s: State, id: string, row: Row, task: nat): State {
    s.(db := s.db.(
         memories := s.db.memories[id := row],
         past := s.db.past[(id, row.version) := row],
         tasks := s.db.tasks[task := Task(id, row.user, row.version, Requested, 0, s.now)]))
  }

  /** Expired leases go back to the queue. */
  function Recovered(task: Task, now: nat): Task {
    if task.status.Leased? && task.status.expires <= now
    then task.(status := Requested, availableAt := now)
    else task
  }

  function RecoverLeases(s: State): State {
    s.(db := s.db.(tasks := map t | t in s.db.tasks :: Recovered(s.db.tasks[t], s.now)))
  }

  /** A lease is taken: the task's attempt is counted and its token recorded. */
  function Counted(db: Tables, token: nat, task: nat, status: Status): Tables
    requires task in db.tasks
  {
    db.(tasks := db.tasks[task := db.tasks[task].(status := status, attempts := db.tasks[task].attempts + 1)],
        claims := db.claims[token := task])
  }

  function SetTask(s: State, t: nat, task: Task): State {
    s.(db := s.db.(tasks := s.db.tasks[t := task]))
  }

  function SetPhase(s: State, token: nat, phase: Phase): State
    requires token in s.attempts
  {
    s.(attempts := s.attempts[token := s.attempts[token].(phase := phase)])
  }

  function Forget(s: State, token: nat): State {
    s.(attempts := s.attempts - {token})
  }

  predicate Owns(s: State, token: nat)
    requires token in s.attempts
  {
    var t := s.attempts[token].task;
    t in s.db.tasks && s.db.tasks[t].status.Leased? && s.db.tasks[t].status.token == token
  }

  function Pow2(n: nat): nat {
    if n == 0 then 1 else 2 * Pow2(n - 1)
  }

  /** The back-off after the given attempt, in seconds. */
  function Delay(cfg: Config, count: nat): nat {
    var d := if count == 0 then 0 else Pow2(count - 1);
    if d < cfg.maxDelay then d else cfg.maxDelay
  }

  /** What the locked source row means for an attempt. */
  function AfterLock(s: State, a: Attempt): Phase {
    if a.memory !in s.db.memories || s.db.memories[a.memory].user != a.user then Failed
    else
      var source := s.db.memories[a.memory];
      if source.version < a.version then Failed
      else if source.version > a.version then Superseded
      else Locked(source, DeleteDense)
  }

  function NextStep(source: Row, step: Step): Step {
    match step
    case DeleteDense => DeleteText
    case DeleteText => if source.deleted then Finish else UpsertDense
    case UpsertDense => IndexText
    case IndexText => Finish
    case Finish => Finish
  }

  /** The effect of the current store call on the two stores, restricted to the entries in `part`. */
  function StoreEffect(cfg: Config, s: State, id: string, source: Row, step: Step, part: set<Entry>): (n: State)
    ensures n == s.(dense := n.dense, text := n.text)
  {
    match step
    case DeleteDense => s.(dense := Without(s.dense, DocumentIn(s.dense, id).Keys * part))
    case DeleteText => s.(text := Without(s.text, DocumentIn(s.text, id).Keys * part))
    case UpsertDense => s.(dense := s.dense + Part(Document(cfg, id, source), part))
    case IndexText => s.(text := s.text + Part(Document(cfg, id, source), part))
    case Finish => s
  }

  /** The entries a complete store call touches. */
  function Whole(cfg: Config, s: State, id: string, source: Row): set<Entry> {
    DocumentIn(s.dense, id).Keys + DocumentIn(s.text, id).Keys + Document(cfg, id, source).Keys
  }

  function Apply(cfg: Config, s: State, e: Event): State
    requires Enabled(s, e)
  {
    match e
    case Tick(seconds) => s.(now := s.now + seconds)
    case Create(id, user, kind, key, value, task) => Write(s, id, Row(user, kind, key, value, false, 1), task)
    case Upsert(id, user, value, task) =>
      if id in s.db.memories
      then Write(s, id, s.db.memories[id].(value := value, version := s.db.memories[id].version + 1), task)
      else Write(s, id, Row(user, Profile, TRAVEL_PROFILE, value, false, 1), task)
    case Update(id, user, value, task) =>
      Write(s, id, s.db.memories[id].(value := value, version := s.db.memories[id].version + 1), task)
    case Delete(id, user, task) =>
      Write(s, id, s.db.memories[id].(deleted := true, version := s.db.memories[id].version + 1), task)
    case Recover => RecoverLeases(s)
    case Claim(token, task) =>
      var t := s.db.tasks[task];
      var r := RecoverLeases(s);
      r.(db := Counted(r.db, token, task, Leased(token, s.now + cfg.lease)),
         attempts := r.attempts[token := Attempt(task, t.memory, t.user, t.version, t.attempts + 1, s.now + cfg.lease, Claimed)])
    case Lock(token) => SetPhase(s, token, AfterLock(s, s.attempts[token]))
    case Disconnect(token) =>
      SetPhase(s, token, Adrift(s.attempts[token].phase.source, s.attempts[token].phase.step))
    case StoreOk(token) =>
      var a := s.attempts[token];
      var source, step := a.phase.source, a.phase.step;
      SetPhase(StoreEffect(cfg, s, a.memory, source, step, Whole(cfg, s, a.memory, source)), token,
               a.phase.(step := NextStep(source, step)))
    case StoreFail(token, part) =>
      var a := s.attempts[token];
      SetPhase(StoreEffect(cfg, s, a.memory, a.phase.source, a.phase.step, part), token, Failed)
    case Fail(token) => SetPhase(s, token, Failed)
    case Complete(token) =>
      var t := s.attempts[token].task;
      Forget(if Owns(s, token) then SetTask(s, t, s.db.tasks[t].(status := Completed)) else s, token)
    case Retry(token) =>
      var a := s.attempts[token];
      Forget(
        if Owns(s, token)
        then SetTask(s, a.task, s.db.tasks[a.task].(status := Requested, availableAt := s.now + Delay(cfg, a.count)))
        else s,
        token)
    case Crash(token) => Forget(s, token)
  }

  /******* Runs *******/

  ghost predicate IsRun(cfg: Config, s: State, events: seq<Event>)
    decreases |events|
  {
    events != [] ==> Enabled(s, events[0]) && IsRun(cfg, Apply(cfg, s, events[0]), events[1..])
  }

  ghost function After(cfg: Config, s: State, events: seq<Event>): State
    requires IsRun(cfg, s, events)
    decreases |events|
  {
    if events == [] then s else After(cfg, Apply(cfg, s, events[0]), events[1..])
  }

  lemma {:induction false} RunConcat(cfg: Config, s: State, a: seq<Event>, b: seq<Event>)
    requires IsRun(cfg, s, a) && IsRun(cfg, After(cfg, s, a), b)
    ensures IsRun(cfg, s, a + b) && After(cfg, s, a + b) == After(cfg, After(cfg, s, a), b)
    decreases |a|
  {
    hide Enabled, Apply;
    if a == [] {
      assert a + b == b;
    } else {
      RunConcat(cfg, Apply(cfg, s, a[0]), a[1..], b);
      assert (a + b)[1..] == a[1..] + b && (a + b)[0] == a[0];
    }
  }

  ghost predicate Reaches(cfg: Config, s: State, n: State) {
    exists events :: IsRun(cfg, s, events) && After(cfg, s, events) == n
  }

  lemma ReachesSelf(cfg: Config, s: State)
    ensures Reaches(cfg, s, s)
  {
    assert IsRun(cfg, s, []) && After(cfg, s, []) == s;
  }

  lemma ReachesTrans(cfg: Config, s: State, m: State, n: State)
    requires Reaches(cfg, s, m) && Reaches(cfg, m, n)
    ensures Reaches(cfg, s, n)
  {
    var a :| IsRun(cfg, s, a) && After(cfg, s, a) == m;
    var b :| IsRun(cfg, m, b) && After(cfg, m, b) == n;
    hide IsRun, After;
    RunConcat(cfg, s, a, b);
    assert IsRun(cfg, s, a + b) && After(cfg, s, a + b) == n;
  }

  lemma ReachesStep(cfg: Config, s: State, m: State, e: Event)
    requires Reaches(cfg, s, m) && Enabled(m, e)
    ensures Reaches(cfg, s, Apply(cfg, m, e))
  {
    hide Enabled, Apply;
    assert [e][1..] == [];
    assert IsRun(cfg, m, [e]) && After(cfg, m, [e]) == Apply(cfg, m, e) by {
      assert IsRun(cfg, Apply(cfg, m, e), []) && After(cfg, Apply(cfg, m, e), []) == Apply(cfg, m, e);
    }
    ReachesTrans(cfg, s, m, Apply(cfg, m, e));
  }
}
